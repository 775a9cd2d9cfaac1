/**
 * `load_price_data` of src/data_loader.py. An empty fetch result is handed
 * back as it is. Otherwise the table is canonicalised, its time column is
 * renamed `date`, a price column is chosen and renamed `price_€/MWh`, and,
 * when there is a price column, calendar, lag and rolling features are
 * added to it. The fetch itself is not part of this model: the loader
 * starts from the table it returns.
 */
module DataLoader {
  import opened Wrappers
  import opened Strings
  import opened Frames
  import opened Canonical
  import opened FeatureBuilder

  const PriceColumn: string := "price_€/MWh"
  const DateColumn: string := "date"

  const NoDateColumn: string := "KeyError: 'date'"
  const DateListedTwice: string := "AttributeError: 'DataFrame' object has no attribute 'dt'"
  const DateNotDatetime: string := "AttributeError: Can only use .dt accessor with datetimelike values"
  const PriceNotNumeric: string := "DataError: No numeric types to aggregate"

  /** What `load_price_data` gives back: a table without features, a frame with them, or the exception it raises. */
  datatype Loaded =
    | Unfeatured(table: Table)
    | Featured(frame: Columns, rows: nat)
    | Failed(error: string)

  predicate Distinct(names: seq<string>)
  {
    forall i, j :: 0 <= i < j < |names| ==> names[i] != names[j]
  }

  /** No name but v is listed twice. */
  predicate CollidesOnlyOn(names: seq<string>, v: string)
  {
    forall i, j :: 0 <= i < j < |names| && names[i] == names[j] ==> names[i] == v
  }

  /** How many times v is listed. */
  function CountOf(names: seq<string>, v: string): nat
  {
    if names == [] then 0
    else CountOf(names[..|names| - 1], v) + if names[|names| - 1] == v then 1 else 0
  }

  /** The position of the first column named n: what `df[n]` reads when n is listed once. */
  function IndexOf(names: seq<string>, n: string): (r: nat)
    requires n in names
    ensures r < |names| && names[r] == n
    ensures forall j :: 0 <= j < r ==> names[j] != n
  {
    if names[0] == n then 0 else 1 + IndexOf(names[1..], n)
  }

  /** `df.rename(columns={from: to})`: every column labelled `from` is relabelled. */
  function Rename(names: seq<string>, from: string, to: string): (r: seq<string>)
    ensures |r| == |names|
    ensures forall j :: 0 <= j < |names| ==> r[j] == if names[j] == from then to else names[j]
  {
    seq(|names|, j requires 0 <= j < |names| => if names[j] == from then to else names[j])
  }

  /** The cells of column j. */
  function Column(rows: seq<seq<Cell>>, j: nat): (r: seq<Cell>)
    requires forall i :: 0 <= i < |rows| ==> j < |rows[i]|
    ensures |r| == |rows| && forall i :: 0 <= i < |rows| ==> r[i] == rows[i][j]
  {
    seq(|rows|, i requires 0 <= i < |rows| => rows[i][j])
  }

  /** The table by column: each name maps to the cells of the first column so named. */
  function ToColumns(t: Table): (r: Columns)
    requires Rectangular(t)
    ensures r.names == t.columns
    ensures forall n :: n in r.cells <==> n in t.columns
    ensures forall n :: n in t.columns ==> r.cells[n] == Column(t.rows, IndexOf(t.columns, n))
  {
    Columns(t.columns, map n | n in t.columns :: Column(t.rows, IndexOf(t.columns, n)))
  }

  lemma DateMarksTime()
    ensures MarksTime(DateColumn)
  {
    assert Lower(DateColumn) == DateColumn;
    assert StartsWith(DateColumn, "date");
  }

  /**
   * The time column renamed `date`, unless it already has that name: the
   * first column whose name mentions a time or a date now reads `date`,
   * every other column keeps its name, and `date` is listed exactly when
   * there is a time column.
   */
  function RenameTime(columns: seq<string>): (r: seq<string>)
    ensures |r| == |columns|
    ensures TimeColumn(columns).None? ==> r == columns
    ensures TimeColumn(columns).Some? ==> r[TimeColumn(columns).value] == DateColumn
    ensures TimeColumn(columns).Some? ==> forall j :: 0 <= j < |columns| && columns[j] != columns[TimeColumn(columns).value] ==> r[j] == columns[j]
    ensures DateColumn in r <==> TimeColumn(columns).Some?
  {
    DateMarksTime();
    match TimeColumn(columns)
    case None => columns
    case Some(i) => if columns[i] == DateColumn then columns else Rename(columns, columns[i], DateColumn)
  }

  /** `'price' in c.lower()` */
  predicate MarksPrice(name: string)
  {
    Contains(Lower(name), "price")
  }

  /** `select_dtypes(include=['number'])` on one column: numbers and missing values only. */
  predicate Numeric(rows: seq<seq<Cell>>, j: nat)
    requires forall i :: 0 <= i < |rows| ==> j < |rows[i]|
  {
    NumericColumn(Column(rows, j))
  }

  /** The first numeric column from column j on. */
  function FirstNumericFrom(rows: seq<seq<Cell>>, width: nat, j: nat): (r: Option<nat>)
    requires forall i :: 0 <= i < |rows| ==> |rows[i]| == width
    ensures r.Some? ==> j <= r.value < width && Numeric(rows, r.value)
    ensures r.Some? ==> forall k :: j <= k < r.value ==> !Numeric(rows, k)
    ensures r.None? ==> forall k :: j <= k < width ==> !Numeric(rows, k)
    decreases width - j
  {
    if j >= width then None
    else if Numeric(rows, j) then Some(j)
    else FirstNumericFrom(rows, width, j + 1)
  }

  /**
   * The column to rename to the price column, when the table lacks one:
   * the first whose name mentions "price", failing that the first numeric
   * one, failing that none.
   */
  function PriceTarget(t: Table): (r: Option<nat>)
    requires Rectangular(t)
    ensures PriceColumn in t.columns ==> r.None?
    ensures r.Some? ==> r.value < |t.columns| && t.columns[r.value] != PriceColumn
    ensures PriceColumn !in t.columns && (exists j :: 0 <= j < |t.columns| && MarksPrice(t.columns[j])) ==>
      && r.Some? && MarksPrice(t.columns[r.value])
      && forall j :: 0 <= j < r.value ==> !MarksPrice(t.columns[j])
    ensures PriceColumn !in t.columns && (forall j :: 0 <= j < |t.columns| ==> !MarksPrice(t.columns[j])) ==>
      && (r.Some? ==> Numeric(t.rows, r.value) && forall j :: 0 <= j < r.value ==> !Numeric(t.rows, j))
      && (r.None? ==> forall j :: 0 <= j < |t.columns| ==> !Numeric(t.rows, j))
  {
    if PriceColumn in t.columns then None
    else match FirstWhere(t.columns, MarksPrice)
      case Some(p) => Some(p)
      case None => FirstNumericFrom(t.rows, |t.columns|, 0)
  }

  /**
   * Both renames, on the same rows: the time column to `date`, then the
   * chosen column to the price column. The table has a price column
   * afterwards exactly when it had one, or some column's name mentions
   * "price", or some column is numeric.
   */
  function Standardise(t: Table): (r: Table)
    requires Rectangular(t)
    ensures r.rows == t.rows && |r.columns| == |t.columns| && Rectangular(r)
    ensures var timed := RenameTime(t.columns);
      PriceColumn in r.columns <==>
        || PriceColumn in timed
        || (exists j :: 0 <= j < |timed| && MarksPrice(timed[j]))
        || (exists j :: 0 <= j < |t.columns| && Numeric(t.rows, j))
    ensures var timed := RenameTime(t.columns);
      match PriceTarget(Table(timed, t.rows))
      case None => r.columns == timed
      case Some(p) =>
        && r.columns[p] == PriceColumn
        && forall j :: 0 <= j < |timed| && timed[j] != timed[p] ==> r.columns[j] == timed[j]
  {
    var timed := Table(RenameTime(t.columns), t.rows);
    match PriceTarget(timed)
    case None => timed
    case Some(p) =>
      assert Rename(timed.columns, timed.columns[p], PriceColumn)[p] == PriceColumn;
      Table(Rename(timed.columns, timed.columns[p], PriceColumn), t.rows)
  }

  /** The columns `load_price_data` adds: calendar columns from `date`, lags 1 and 24, rolling windows 24 and 48. */
  function Featurize(c: Columns): (r: Columns)
    requires DateColumn in c.cells && PriceColumn in c.cells
    ensures c.cells.Keys <= r.cells.Keys
  {
    var withCalendar := WithCalendar(c, DateColumn);
    var withLags := WithLags(withCalendar, [PriceColumn], DefaultLags);
    WithRolling(withLags, PriceColumn, DefaultWindows)
  }

  /** The cells of the `date` column. */
  function DateCells(t: Table): seq<Cell>
    requires Rectangular(t) && DateColumn in t.columns
  {
    Column(t.rows, IndexOf(t.columns, DateColumn))
  }

  /** The cells of the price column. */
  function PriceCells(t: Table): seq<Cell>
    requires Rectangular(t) && PriceColumn in t.columns
  {
    Column(t.rows, IndexOf(t.columns, PriceColumn))
  }

  /**
   * The feature stage of a standardised table. Without a price column the
   * table is returned as it is. Otherwise the three `add_*` calls run, and
   * raise when there is no `date` column (KeyError), when `date` is listed
   * twice or holds something other than instants (the `.dt` accessor is
   * missing), or when the price column is not numeric (rolling cannot
   * aggregate it).
   */
  function Features(t: Table): (r: Loaded)
    requires Rectangular(t) && (DateColumn in t.columns ==> CollidesOnlyOn(t.columns, DateColumn))
    ensures r.Unfeatured? <==> PriceColumn !in t.columns
    ensures r.Unfeatured? ==> r.table == t
    ensures r.Featured? ==> r.rows == |t.rows| && DateColumn in t.columns && PriceColumn in t.columns
    ensures r.Featured? ==> Distinct(t.columns)
  {
    if PriceColumn !in t.columns then Unfeatured(t)
    else if DateColumn !in t.columns then Failed(NoDateColumn)
    else if CountOf(t.columns, DateColumn) > 1 then Failed(DateListedTwice)
    else if !TimeCells(DateCells(t)) then Failed(DateNotDatetime)
    else if !NumericColumn(PriceCells(t)) then Failed(PriceNotNumeric)
    else
      OnlyCollisionCounted(t.columns, DateColumn);
      Featured(Featurize(ToColumns(t)), |t.rows|)
  }

  /**
   * `load_price_data`: an empty fetch result (no rows or no columns) comes
   * back unchanged; otherwise the canonicalised table with its columns
   * standardised goes through the feature stage, and it gains features
   * exactly when it has a price column.
   */
  function Load(raw: Table, parse: Cell -> int): (r: Loaded)
    requires Rectangular(raw) && Distinct(raw.columns)
    ensures raw.rows == [] || raw.columns == [] ==> r == Unfeatured(raw)
    ensures raw.rows != [] && raw.columns != [] ==>
      var named := Standardise(TransformData(raw, parse));
      && (r.Unfeatured? <==> PriceColumn !in named.columns)
      && (r.Unfeatured? ==> r.table == named)
  {
    if raw.rows == [] || raw.columns == [] then Unfeatured(raw)
    else
      var named := Standardise(TransformData(raw, parse));
      StandardisedCollisions(raw, parse);
      Features(named)
  }

  /**
   * `load_price_data` with the three feature builders run on a frame in
   * place, as the source chains them; it gives the same result as Load.
   */
  method LoadPriceData(raw: Table, parse: Cell -> int) returns (r: Loaded)
    requires Rectangular(raw) && Distinct(raw.columns)
    ensures r == Load(raw, parse)
  {
    if raw.rows == [] || raw.columns == [] {
      return Unfeatured(raw);
    }
    var named := Standardise(TransformData(raw, parse));
    StandardisedCollisions(raw, parse);
    if PriceColumn !in named.columns {
      return Unfeatured(named);
    }
    if DateColumn !in named.columns {
      return Failed(NoDateColumn);
    }
    if CountOf(named.columns, DateColumn) > 1 {
      return Failed(DateListedTwice);
    }
    if !TimeCells(DateCells(named)) {
      return Failed(DateNotDatetime);
    }
    if !NumericColumn(PriceCells(named)) {
      return Failed(PriceNotNumeric);
    }
    OnlyCollisionCounted(named.columns, DateColumn);
    var frame := BuildFrame(named);
    AddLoaderFeatures(frame);
    r := Featured(frame.View(), frame.rows);
  }

  /** A fresh frame holding the table's columns. */
  method BuildFrame(t: Table) returns (frame: FeatureFrame)
    requires Rectangular(t) && Distinct(t.columns)
    ensures fresh(frame) && frame.Valid()
    ensures frame.View() == ToColumns(t) && frame.rows == |t.rows|
  {
    ToColumnsWellFormed(t);
    frame := new FeatureFrame(ToColumns(t), |t.rows|);
  }

  /** The three `add_*` calls of `load_price_data`, run in place on the frame in the order the source chains them. */
  method AddLoaderFeatures(frame: FeatureFrame)
    requires frame.Valid()
    requires DateColumn in frame.cells && TimeCells(frame.cells[DateColumn])
    requires PriceColumn in frame.cells && NumericColumn(frame.cells[PriceColumn])
    modifies frame
    ensures frame.View() == Featurize(old(frame.View()))
    ensures frame.Valid() && frame.rows == old(frame.rows)
  {
    ghost var c := frame.View();
    frame.AddCalendarFeatures(DateColumn);
    CalendarKeeps(c, DateColumn, PriceColumn);
    frame.AddLagFeatures([PriceColumn], DefaultLags);
    PriceNotLagged(WithCalendar(c, DateColumn));
    DefaultWindowsPositive();
    frame.AddRollingFeatures(PriceColumn, DefaultWindows);
  }

  // ---------------------------------------------------------------------
  // Why the frame can be built

  /** When only v can be listed twice and it is listed at most once, no name is listed twice. */
  lemma OnlyCollisionCounted(names: seq<string>, v: string)
    requires CollidesOnlyOn(names, v) && CountOf(names, v) <= 1
    ensures Distinct(names)
  {
    forall i, j | 0 <= i < j < |names|
      ensures names[i] != names[j]
    {
      if names[i] == names[j] {
        CountTwo(names, v, i, j);
      }
    }
  }

  /** A name listed at two places is counted at least twice. */
  lemma {:induction false} CountTwo(names: seq<string>, v: string, i: int, j: int)
    requires 0 <= i < j < |names| && names[i] == v && names[j] == v
    ensures CountOf(names, v) >= 2
  {
    var m := |names| - 1;
    var init := names[..m];
    if j < m {
      CountTwo(init, v, i, j);
    } else {
      assert init[i] == v;
      CountPositive(init, v, i);
    }
  }

  lemma {:induction false} CountPositive(names: seq<string>, v: string, i: int)
    requires 0 <= i < |names| && names[i] == v
    ensures CountOf(names, v) >= 1
  {
    var m := |names| - 1;
    if i < m {
      assert names[..m][i] == v;
      CountPositive(names[..m], v, i);
    }
  }

  /** A list without repeats has as many distinct names as entries. */
  lemma {:induction false} DistinctSize(names: seq<string>)
    requires Distinct(names)
    ensures |set n | n in names| == |names|
  {
    if names != [] {
      var m := |names| - 1;
      var init := names[..m];
      assert Distinct(init) by {
        forall i, j | 0 <= i < j < m
          ensures init[i] != init[j]
        {
          assert init[i] == names[i] && init[j] == names[j];
        }
      }
      DistinctSize(init);
      assert (set n | n in names) == (set n | n in init) + {names[m]} by {
        assert names == init + [names[m]];
      }
      assert names[m] !in init by {
        forall i | 0 <= i < m
          ensures init[i] != names[m]
        {
          assert init[i] == names[i];
        }
      }
    }
  }

  /** A table without repeated names is a well-formed frame. */
  lemma ToColumnsWellFormed(t: Table)
    requires Rectangular(t) && Distinct(t.columns)
    ensures WellFormed(ToColumns(t), |t.rows|)
  {
    var c := ToColumns(t);
    assert c.cells.Keys == set n | n in t.columns;
    DistinctSize(t.columns);
  }

  /** Moving the time column to the front keeps the names apart. */
  lemma TransformDistinct(raw: Table, parse: Cell -> int)
    requires Rectangular(raw) && Distinct(raw.columns)
    ensures Distinct(TransformData(raw, parse).columns)
  {
    if TimeColumn(raw.columns).Some? {
      MoveToFrontDistinct(raw.columns, TimeColumn(raw.columns).value);
    }
  }

  lemma MoveToFrontDistinct(names: seq<string>, c: nat)
    requires c < |names| && Distinct(names)
    ensures Distinct([names[c]] + RemoveAt(names, c))
  {
    var moved := [names[c]] + RemoveAt(names, c);
    forall i, j | 0 <= i < j < |moved|
      ensures moved[i] != moved[j]
    {
      var si := if i == 0 then c else if i - 1 < c then i - 1 else i;
      var sj := if j - 1 < c then j - 1 else j;
      assert moved[i] == names[si] && moved[j] == names[sj];
    }
  }

  /** Relabelling keeps only v collided when the old label is not v and the new one neither v nor listed. */
  lemma RenameCollisions(names: seq<string>, from: string, to: string, v: string)
    requires CollidesOnlyOn(names, v) && from != v && to != v && to !in names
    ensures CollidesOnlyOn(Rename(names, from, to), v)
  {
  }

  /** Relabelling a list without repeats can only collide on the new label. */
  lemma RenameDistinct(names: seq<string>, from: string, to: string)
    requires Distinct(names)
    ensures CollidesOnlyOn(Rename(names, from, to), to)
  {
  }

  /** A relabelled name is gone. */
  lemma RenameRemoves(names: seq<string>, from: string, to: string)
    requires from != to
    ensures from !in Rename(names, from, to)
  {
    forall j | 0 <= j < |names|
      ensures Rename(names, from, to)[j] != from
    {
    }
  }

  /** When the standardised columns list `date`, they repeat no other name. */
  lemma StandardisedCollisions(raw: Table, parse: Cell -> int)
    requires Rectangular(raw) && Distinct(raw.columns)
    ensures var named := Standardise(TransformData(raw, parse)).columns;
      DateColumn in named ==> CollidesOnlyOn(named, DateColumn)
  {
    var df := TransformData(raw, parse);
    TransformDistinct(raw, parse);
    var timed := Table(RenameTime(df.columns), df.rows);
    match TimeColumn(df.columns)
    case None =>
    case Some(i) =>
      if df.columns[i] != DateColumn {
        RenameDistinct(df.columns, df.columns[i], DateColumn);
      }
    match PriceTarget(timed)
    case None =>
    case Some(p) =>
      if timed.columns[p] == DateColumn {
        RenameRemoves(timed.columns, DateColumn, PriceColumn);
      } else {
        RenameCollisions(timed.columns, timed.columns[p], PriceColumn, DateColumn);
      }
  }

  /** The price column is none of its own lag names. */
  lemma PriceNotLagged(c: Columns)
    requires PriceColumn in c.cells
    ensures WithLags(c, [PriceColumn], DefaultLags).cells[PriceColumn] == c.cells[PriceColumn]
  {
    ShortNameNoLag(PriceColumn, DefaultLags, PriceColumn);
    WithLagsKeeps(c, [PriceColumn], DefaultLags, PriceColumn);
  }

  // ---------------------------------------------------------------------
  // What the loaded frame holds

  /**
   * After the renames `date` is listed only if the table had a time column,
   * and it then stands where the time column stood.
   */
  lemma StandardisedDate(t: Table)
    requires Rectangular(t)
    ensures DateColumn in Standardise(t).columns ==>
      TimeColumn(t.columns).Some? && Standardise(t).columns[TimeColumn(t.columns).value] == DateColumn
  {
    var timed := Table(RenameTime(t.columns), t.rows);
    var named := Standardise(t);
    if DateColumn in named.columns {
      var j := IndexOf(named.columns, DateColumn);
      assert timed.columns[j] == DateColumn by {
        if PriceTarget(timed).Some? {
          assert named.columns[j] == DateColumn;
        }
      }
      var i := TimeColumn(t.columns).value;
      if PriceTarget(timed).Some? {
        var p := PriceTarget(timed).value;
        if timed.columns[p] == DateColumn {
          RenameRemoves(timed.columns, DateColumn, PriceColumn);
        }
      }
    }
  }

  /** When the canonical table has a time column, it is the first, and it holds instants. */
  lemma TransformedTime(raw: Table, parse: Cell -> int)
    requires Rectangular(raw)
    ensures var df := TransformData(raw, parse);
      TimeColumn(df.columns).Some? ==>
        && TimeColumn(df.columns) == Some(0)
        && forall k :: 0 <= k < |df.rows| ==> |df.rows[k]| > 0 && df.rows[k][0].Stamp?
  {
    var df := TransformData(raw, parse);
    if TimeColumn(df.columns).Some? {
      assert TimeColumn(raw.columns).Some?;
      TimeColumnFirst(df.columns);
      assert HalfHourly(df.rows);
    }
  }

  /** The `date` column of the standardised table is the first, and holds the canonical grid's instants. */
  lemma DateIsTime(raw: Table, parse: Cell -> int)
    requires Rectangular(raw)
    ensures var named := Standardise(TransformData(raw, parse));
      DateColumn in named.columns ==> IndexOf(named.columns, DateColumn) == 0 && TimeCells(DateCells(named))
  {
    var df := TransformData(raw, parse);
    var named := Standardise(df);
    StandardisedDate(df);
    TransformedTime(raw, parse);
    if DateColumn in named.columns {
      var dates := DateCells(named);
      forall k | 0 <= k < |dates|
        ensures dates[k].Stamp?
      {
        assert dates[k] == df.rows[k][0];
      }
    }
  }

  /** `load_price_data` never reaches the `.dt` accessor with a `date` column that does not hold instants. */
  lemma LoadDatesAreInstants(raw: Table, parse: Cell -> int)
    requires Rectangular(raw) && Distinct(raw.columns)
    ensures Load(raw, parse) != Failed(DateNotDatetime)
  {
    DateIsTime(raw, parse);
  }

  /** Featured results are the features of the standardised table as a frame. */
  lemma FeaturedFrame(t: Table)
    requires Rectangular(t) && (DateColumn in t.columns ==> CollidesOnlyOn(t.columns, DateColumn))
    requires Features(t).Featured?
    ensures Features(t).frame == Featurize(ToColumns(t))
    ensures ToColumns(t).cells[PriceColumn] == PriceCells(t) && NumericColumn(PriceCells(t))
    ensures ToColumns(t).cells[DateColumn] == DateCells(t) && TimeCells(DateCells(t))
  {
  }

  /** The frame after the calendar columns and the lags, with the price column as it was. */
  lemma LaggedPrices(c: Columns)
    requires DateColumn in c.cells && PriceColumn in c.cells
    ensures var lagged := WithLags(WithCalendar(c, DateColumn), [PriceColumn], DefaultLags);
      PriceColumn in lagged.cells && lagged.cells[PriceColumn] == c.cells[PriceColumn]
  {
    CalendarKeeps(c, DateColumn, PriceColumn);
    PriceNotLagged(WithCalendar(c, DateColumn));
  }

  /**
   * The lag columns of the loaded frame: `price_€/MWh_lag1` and
   * `price_€/MWh_lag24` are the price column shifted by one and by 24 rows.
   */
  lemma FeaturizedLags(c: Columns, k: int)
    requires DateColumn in c.cells && PriceColumn in c.cells && 0 <= k < |DefaultLags|
    ensures LagName(PriceColumn, DefaultLags[k]) in Featurize(c).cells
    ensures Featurize(c).cells[LagName(PriceColumn, DefaultLags[k])] == Shift(c.cells[PriceColumn], DefaultLags[k])
  {
    var withCalendar := WithCalendar(c, DateColumn);
    CalendarKeeps(c, DateColumn, PriceColumn);
    ShortNameNoLag(PriceColumn, DefaultLags, PriceColumn);
    WithLagsShifts(withCalendar, [PriceColumn], DefaultLags, 0, k);
    LagNameNoRolling(PriceColumn, DefaultLags[k], DefaultWindows);
    DefaultWindowsPositive();
    WithRollingKeeps(WithLags(withCalendar, [PriceColumn], DefaultLags), PriceColumn, DefaultWindows, LagName(PriceColumn, DefaultLags[k]));
  }

  /**
   * The rolling columns of the loaded frame: for w = 24 and 48, the mean
   * and std columns are the rolling mean and std of the price column.
   */
  lemma FeaturizedRolling(c: Columns, k: int)
    requires DateColumn in c.cells && PriceColumn in c.cells && 0 <= k < |DefaultWindows|
    ensures var w, f := DefaultWindows[k], Featurize(c);
      && MeanName(PriceColumn, w) in f.cells && f.cells[MeanName(PriceColumn, w)] == MeanColumn(c.cells[PriceColumn], w)
      && StdName(PriceColumn, w) in f.cells && f.cells[StdName(PriceColumn, w)] == StdColumn(c.cells[PriceColumn], w)
  {
    LaggedPrices(c);
    DefaultWindowsPositive();
    WithRollingColumns(WithLags(WithCalendar(c, DateColumn), [PriceColumn], DefaultLags), PriceColumn, DefaultWindows, k);
  }

  /** A calendar column survives the lags and the rolling windows. */
  lemma CalendarSurvives(c: Columns, n: string)
    requires DateColumn in c.cells && PriceColumn in c.cells
    requires n == "hour" || n == "weekday" || n == "month" || n == "is_weekend"
    ensures n in Featurize(c).cells && Featurize(c).cells[n] == WithCalendar(c, DateColumn).cells[n]
  {
    var withCalendar := WithCalendar(c, DateColumn);
    ShortNameNoLag(PriceColumn, DefaultLags, n);
    WithLagsKeeps(withCalendar, [PriceColumn], DefaultLags, n);
    ShortNameNoRolling(PriceColumn, DefaultWindows, n);
    DefaultWindowsPositive();
    WithRollingKeeps(WithLags(withCalendar, [PriceColumn], DefaultLags), PriceColumn, DefaultWindows, n);
  }

  /**
   * The calendar columns of the loaded frame at row i: hour, weekday and
   * month of the row's instant, and is_weekend iff that weekday is Saturday
   * or Sunday.
   */
  lemma FeaturizedCalendar(c: Columns, i: int)
    requires DateColumn in c.cells && PriceColumn in c.cells
    requires 0 <= i < |c.cells[DateColumn]| && c.cells[DateColumn][i].Stamp?
    ensures var f, n := Featurize(c), |c.cells[DateColumn]|;
      |f.cells["hour"]| == n && |f.cells["weekday"]| == n && |f.cells["month"]| == n && |f.cells["is_weekend"]| == n
    ensures var f, t := Featurize(c), c.cells[DateColumn][i].t;
      && f.cells["hour"][i] == Num(Calendar.HourOf(t) as real)
      && f.cells["weekday"][i] == Num(Calendar.Weekday(t) as real)
      && f.cells["month"][i] == Num(Calendar.Month(t) as real)
      && f.cells["is_weekend"][i] == Flag(Calendar.Weekday(t) >= 5)
  {
    CalendarValues(c, DateColumn, i);
    CalendarLengths(c, DateColumn);
    CalendarSurvives(c, "hour");
    CalendarSurvives(c, "weekday");
    CalendarSurvives(c, "month");
    CalendarSurvives(c, "is_weekend");
  }

  /** Every other column of the table, the price and date columns among them, keeps its cells. */
  lemma FeaturizedKeeps(c: Columns, n: string)
    requires DateColumn in c.cells && PriceColumn in c.cells && n in c.cells
    requires n != "hour" && n != "weekday" && n != "month" && n != "is_weekend"
    requires n !in LagNames(PriceColumn, DefaultLags)
    requires n == PriceColumn || IsNoRollingName(n, PriceColumn, DefaultWindows)
    ensures Featurize(c).cells[n] == c.cells[n]
  {
    var withCalendar := WithCalendar(c, DateColumn);
    CalendarKeeps(c, DateColumn, n);
    WithLagsKeeps(withCalendar, [PriceColumn], DefaultLags, n);
    DefaultWindowsPositive();
    WithRollingKeeps(WithLags(withCalendar, [PriceColumn], DefaultLags), PriceColumn, DefaultWindows, n);
  }
}
