/**
 * The data explorer page's rules for the Elexon frames it shows: the
 * requested window (a start after the end stops the page, a future end
 * becomes now, a span over 14 days is cut), the instant each row is indexed
 * by, the APXMIDP provider filter on market index rows, the expansion of
 * the per-type payload's nested `data` lists into one row per item, the
 * fuel column renames and the derived wind and solar columns.  Instants are
 * whole minutes UTC and the current time is a parameter.
 */
module DataExplorer {
  import opened Wrappers
  import opened Json
  import opened Frames
  import opened Calendar
  import Transform
  import DataLoader
  import FeatureBuilder

  // ---------------------------------------------------------------------
  // The requested window

  datatype Window = Stopped | Window(start: int, end: int)

  /**
   * The sidebar's checks, in order: a start after the end stops the page;
   * an end later than now is moved to now; a span of more than 14 whole
   * days moves the start to 14 days before the end.  The start is never
   * moved earlier, and the window comes out inverted exactly when the
   * requested start is later than now.
   */
  method ValidateWindow(start: int, end: int, now: int) returns (w: Window)
    ensures w.Stopped? <==> start > end
    ensures w.Window? ==> w.end == if end > now then now else end
    ensures w.Window? ==> WholeDays(w.end - w.start) <= 14
    ensures w.Window? ==> start <= w.start
    ensures w.Window? ==> (w.start == start <==> WholeDays(w.end - start) <= 14)
    ensures w.Window? && w.start != start ==> w.end - w.start == 14 * 1440
    ensures w.Window? ==> (w.start <= w.end <==> start <= now)
  {
    if start > end {
      return Stopped;
    }
    var dtEnd := end;
    if dtEnd > now {
      dtEnd := now;
    }
    var dtStart := start;
    if WholeDays(dtEnd - dtStart) > 14 {
      dtStart := dtEnd - 14 * 1440;
    }
    w := Window(dtStart, dtEnd);
  }

  // ---------------------------------------------------------------------
  // The instant of each row

  const StartTime: string := "startTime"
  const LocalDatetime: string := "local_datetime"
  const SettlementDate: string := "settlementDate"
  const SettlementPeriod: string := "settlementPeriod"

  /** `settlementDate + (settlementPeriod - 1) * 30 minutes`, tagged UTC. */
  function SettlementInstant(date: int, period: int): int
  {
    date + (period - 1) * 30
  }

  /**
   * On a day given by its midnight, period p (1 to 48) starts (p - 1) half
   * hours into that day, on the half hour; periods past 48 run into the
   * next day.
   */
  lemma SettlementWithinDay(date: int, period: int)
    requires date % 1440 == 0 && 1 <= period <= 48
    ensures Midnight(SettlementInstant(date, period)) == date
    ensures HourOf(SettlementInstant(date, period)) == (period - 1) / 2
    ensures SettlementInstant(date, period) % 30 == 0
    ensures SettlementInstant(date, period + 48) == SettlementInstant(date + 1440, period)
  {
    var k := (period - 1) * 30;
    assert 0 <= k < 1440;
    assert date == 1440 * (date / 1440);
    assert (date + k) % 1440 == k;
    assert k / 60 == (period - 1) / 2;
    assert (date + k) % 30 == 0 by {
      assert date + k == 30 * (48 * (date / 1440) + period - 1);
    }
  }

  /** Distinct periods of one day give distinct instants, each one half hour after the last. */
  lemma SettlementPeriodsOrdered(date: int, p: int, q: int)
    ensures SettlementInstant(date, p) < SettlementInstant(date, q) <==> p < q
    ensures SettlementInstant(date, p + 1) == SettlementInstant(date, p) + 30
  {
  }

  /** The four frames the page indexes, which differ in the columns they try. */
  datatype Frame = MarketIndex | TotalLoad | WindAndSolar | FuelType

  datatype StampSource = FromStartTime | FromLocal | FromSettlement | Unstamped

  /**
   * Where a frame's `ts` comes from: `startTime` first (not tried on the
   * market index frame), then `local_datetime`, then the settlement pair.
   * The market index and total load frames use the pair without checking
   * for it; the other two leave the frame unindexed when it is incomplete.
   */
  function StampSourceOf(frame: Frame, columns: seq<string>): (r: StampSource)
    ensures r == FromStartTime <==> frame != MarketIndex && StartTime in columns
    ensures r == FromLocal <==> LocalDatetime in columns && (frame == MarketIndex || StartTime !in columns)
    ensures r == Unstamped <==>
      (frame.WindAndSolar? || frame.FuelType?) && StartTime !in columns && LocalDatetime !in columns
      && !(SettlementDate in columns && SettlementPeriod in columns)
    ensures r == FromSettlement && (frame == WindAndSolar || frame == FuelType) ==>
      SettlementDate in columns && SettlementPeriod in columns
  {
    if frame != MarketIndex && StartTime in columns then FromStartTime
    else if LocalDatetime in columns then FromLocal
    else if frame == MarketIndex || frame == TotalLoad then FromSettlement
    else if SettlementDate in columns && SettlementPeriod in columns then FromSettlement
    else Unstamped
  }

  /** `pd.to_datetime(cell, utc=True)`: a missing cell stays missing (NaT). */
  function ToInstant(c: Cell, parse: Cell -> int): Cell
  {
    if c.Missing? then Missing else Stamp(Transform.ToStamp(c, parse))
  }

  /** A settlement period cell holding a whole number. */
  function WholePeriod(c: Cell): Option<int>
  {
    if c.Num? && c.x == c.x.Floor as real then Some(c.x.Floor) else None
  }

  /** The settlement pair's instant; NaT when the date is missing or the period is not a whole number. */
  function SettlementStamp(date: Cell, period: Cell, parse: Cell -> int): (r: Cell)
    ensures r.Stamp? <==> !date.Missing? && WholePeriod(period).Some?
    ensures r.Stamp? ==> r.t == SettlementInstant(Transform.ToStamp(date, parse), WholePeriod(period).value)
  {
    if date.Missing? || WholePeriod(period).None? then Missing
    else Stamp(SettlementInstant(Transform.ToStamp(date, parse), WholePeriod(period).value))
  }

  /** The columns a source reads are present. */
  predicate Readable(src: StampSource, columns: seq<string>)
  {
    match src
    case FromStartTime => StartTime in columns
    case FromLocal => LocalDatetime in columns
    case FromSettlement => SettlementDate in columns && SettlementPeriod in columns
    case Unstamped => false
  }

  /** The `ts` of one row. */
  function RowStamp(src: StampSource, columns: seq<string>, row: seq<Cell>, parse: Cell -> int): Cell
    requires Readable(src, columns) && |row| == |columns|
  {
    match src
    case FromStartTime => ToInstant(row[DataLoader.IndexOf(columns, StartTime)], parse)
    case FromLocal => ToInstant(row[DataLoader.IndexOf(columns, LocalDatetime)], parse)
    case FromSettlement =>
      SettlementStamp(row[DataLoader.IndexOf(columns, SettlementDate)],
                      row[DataLoader.IndexOf(columns, SettlementPeriod)], parse)
  }

  datatype Stamped = Unindexed | Indexed(ts: seq<Cell>) | MissingColumn(name: string)

  /**
   * The `ts` index a frame gets: none when no source applies, a KeyError
   * naming the first settlement column that is absent when the pair is
   * read unchecked, and otherwise one instant per row.
   */
  function StampsOf(frame: Frame, t: Table, parse: Cell -> int): (r: Stamped)
    requires Rectangular(t)
    ensures r.Unindexed? <==> StampSourceOf(frame, t.columns) == Unstamped
    ensures r.MissingColumn? <==>
      StampSourceOf(frame, t.columns) == FromSettlement && !Readable(FromSettlement, t.columns)
    ensures r.MissingColumn? ==> r.name == if SettlementDate !in t.columns then SettlementDate else SettlementPeriod
    ensures r.Indexed? ==> Readable(StampSourceOf(frame, t.columns), t.columns) && |r.ts| == |t.rows|
    ensures r.Indexed? ==> forall i :: 0 <= i < |t.rows| ==>
      r.ts[i] == RowStamp(StampSourceOf(frame, t.columns), t.columns, t.rows[i], parse)
  {
    var src := StampSourceOf(frame, t.columns);
    if src == Unstamped then Unindexed
    else if src == FromSettlement && SettlementDate !in t.columns then MissingColumn(SettlementDate)
    else if src == FromSettlement && SettlementPeriod !in t.columns then MissingColumn(SettlementPeriod)
    else Indexed(seq(|t.rows|, i requires 0 <= i < |t.rows| => RowStamp(src, t.columns, t.rows[i], parse)))
  }

  /**
   * A row indexed by its settlement pair, whose date parses to a midnight
   * and whose period is 1 to 48, gets an instant on that day at hour
   * (period - 1) / 2.
   */
  lemma SettlementRowOnItsDay(frame: Frame, t: Table, parse: Cell -> int, i: nat)
    requires Rectangular(t) && StampsOf(frame, t, parse).Indexed? && i < |t.rows|
    requires StampSourceOf(frame, t.columns) == FromSettlement
    requires !t.rows[i][DataLoader.IndexOf(t.columns, SettlementDate)].Missing?
    requires Transform.ToStamp(t.rows[i][DataLoader.IndexOf(t.columns, SettlementDate)], parse) % 1440 == 0
    requires WholePeriod(t.rows[i][DataLoader.IndexOf(t.columns, SettlementPeriod)]).Some?
    requires 1 <= WholePeriod(t.rows[i][DataLoader.IndexOf(t.columns, SettlementPeriod)]).value <= 48
    ensures StampsOf(frame, t, parse).ts[i].Stamp?
    ensures Midnight(StampsOf(frame, t, parse).ts[i].t)
      == Transform.ToStamp(t.rows[i][DataLoader.IndexOf(t.columns, SettlementDate)], parse)
    ensures HourOf(StampsOf(frame, t, parse).ts[i].t)
      == (WholePeriod(t.rows[i][DataLoader.IndexOf(t.columns, SettlementPeriod)]).value - 1) / 2
  {
    var date := Transform.ToStamp(t.rows[i][DataLoader.IndexOf(t.columns, SettlementDate)], parse);
    var p := WholePeriod(t.rows[i][DataLoader.IndexOf(t.columns, SettlementPeriod)]).value;
    SettlementWithinDay(date, p);
  }

  // ---------------------------------------------------------------------
  // The APXMIDP filter

  const DataProvider: string := "dataProvider"
  const Apx: string := "APXMIDP"

  /** The provider cell (column j) of a row is "APXMIDP". */
  predicate IsApx(row: seq<Cell>, j: nat)
  {
    j < |row| && row[j] == Text(Apx)
  }

  /** The APXMIDP rows, in their order. */
  function ApxRows(rows: seq<seq<Cell>>, j: nat): (r: seq<seq<Cell>>)
    ensures |r| <= |rows|
    ensures forall k :: 0 <= k < |r| ==> IsApx(r[k], j)
  {
    if rows == [] then []
    else if IsApx(rows[|rows| - 1], j) then ApxRows(rows[..|rows| - 1], j) + [rows[|rows| - 1]]
    else ApxRows(rows[..|rows| - 1], j)
  }

  /** `df[df["dataProvider"] == "APXMIDP"]` when the column exists, the frame as it is otherwise. */
  function FilterApx(t: Table): (r: Table)
    requires Rectangular(t)
    ensures r.columns == t.columns && Rectangular(r)
    ensures DataProvider !in t.columns ==> r == t
    ensures DataProvider in t.columns ==> r.rows == ApxRows(t.rows, DataLoader.IndexOf(t.columns, DataProvider))
  {
    if DataProvider in t.columns then
      ApxRowsKeepsEvery(t.rows, DataLoader.IndexOf(t.columns, DataProvider));
      Table(t.columns, ApxRows(t.rows, DataLoader.IndexOf(t.columns, DataProvider)))
    else t
  }

  /** The filter keeps every APXMIDP row and nothing that was not a row. */
  lemma {:induction false} ApxRowsKeepsEvery(rows: seq<seq<Cell>>, j: nat)
    ensures forall k :: 0 <= k < |ApxRows(rows, j)| ==> ApxRows(rows, j)[k] in rows
    ensures forall i :: 0 <= i < |rows| && IsApx(rows[i], j) ==> rows[i] in ApxRows(rows, j)
    decreases |rows|
  {
    if rows != [] {
      var init := rows[..|rows| - 1];
      ApxRowsKeepsEvery(init, j);
      assert forall i :: 0 <= i < |init| ==> init[i] == rows[i];
    }
  }

  /** How many APXMIDP rows there are. */
  function ApxCount(rows: seq<seq<Cell>>, j: nat): nat
  {
    if rows == [] then 0
    else ApxCount(rows[..|rows| - 1], j) + if IsApx(rows[|rows| - 1], j) then 1 else 0
  }

  /** The filter keeps one row per APXMIDP row. */
  lemma {:induction false} ApxRowsCount(rows: seq<seq<Cell>>, j: nat)
    ensures |ApxRows(rows, j)| == ApxCount(rows, j)
    decreases |rows|
  {
    if rows != [] {
      ApxRowsCount(rows[..|rows| - 1], j);
    }
  }

  /** When every row is an APXMIDP row, the filter keeps the frame whole. */
  lemma {:induction false} ApxRowsAll(rows: seq<seq<Cell>>, j: nat)
    requires forall i :: 0 <= i < |rows| ==> IsApx(rows[i], j)
    ensures ApxRows(rows, j) == rows
    decreases |rows|
  {
    if rows != [] {
      var init := rows[..|rows| - 1];
      ApxRowsAll(init, j);
      assert init + [rows[|rows| - 1]] == rows;
    }
  }

  /** When no row is an APXMIDP row, nothing is kept. */
  lemma {:induction false} ApxRowsNone(rows: seq<seq<Cell>>, j: nat)
    requires forall i :: 0 <= i < |rows| ==> !IsApx(rows[i], j)
    ensures ApxRows(rows, j) == []
    decreases |rows|
  {
    if rows != [] {
      ApxRowsNone(rows[..|rows| - 1], j);
    }
  }

  /** Filtering twice keeps what filtering once keeps. */
  lemma ApxRowsIdempotent(rows: seq<seq<Cell>>, j: nat)
    ensures ApxRows(ApxRows(rows, j), j) == ApxRows(rows, j)
  {
    ApxRowsAll(ApxRows(rows, j), j);
  }

  // ---------------------------------------------------------------------
  // The nested `data` lists of the per-type payload

  /** A decoded record: a JSON object's fields, in order. */
  type Record = seq<(string, Json)>

  const Data: string := "data"

  /** `key in df.columns` for a frame built from records: some record has the key. */
  predicate HasColumn(rows: seq<Record>, key: string)
  {
    exists i :: 0 <= i < |rows| && HasKey(rows[i], key)
  }

  /** `row[key]`, with NaN (here JSON null) where the record lacks the key. */
  function Value(row: Record, key: string): Json
  {
    match Get(row, key)
    case Some(v) => v
    case None => JNull
  }

  /** The expansion runs when a `data` column exists and the first row's `data` is a list. */
  predicate NestedData(rows: seq<Record>)
  {
    rows != [] && HasColumn(rows, Data) && Value(rows[0], Data).JArr?
  }

  /** A `data` value the loop can expand: a list of objects. */
  predicate ObjectList(v: Json)
  {
    v.JArr? && forall m :: 0 <= m < |v.items| ==> v.items[m].JObj?
  }

  predicate Expandable(rows: seq<Record>)
  {
    forall i :: 0 <= i < |rows| ==> ObjectList(Value(rows[i], Data))
  }

  /** `{'startTime': row['startTime'], 'settlementPeriod': row['settlementPeriod']}` */
  function Base(row: Record): Record
  {
    [(StartTime, Value(row, StartTime)), (SettlementPeriod, Value(row, SettlementPeriod))]
  }

  /** The entries of one row: the base updated by each item, in item order. */
  function Entries(base: Record, items: seq<Json>): (r: seq<Record>)
    requires forall m :: 0 <= m < |items| ==> items[m].JObj?
    ensures |r| == |items|
    ensures forall m :: 0 <= m < |items| ==> r[m] == Update(base, items[m].fields)
  {
    if items == [] then []
    else Entries(base, items[..|items| - 1]) + [Update(base, items[|items| - 1].fields)]
  }

  /** The parts one after another. */
  function Flatten<T>(parts: seq<seq<T>>): seq<T>
  {
    if parts == [] then [] else Flatten(parts[..|parts| - 1]) + parts[|parts| - 1]
  }

  /** Element m of part i sits after the parts before it. */
  lemma {:induction false} FlattenAt<T>(parts: seq<seq<T>>, i: nat, m: nat)
    requires i < |parts| && m < |parts[i]|
    ensures |Flatten(parts[..i])| + m < |Flatten(parts)|
    ensures Flatten(parts)[|Flatten(parts[..i])| + m] == parts[i][m]
    decreases |parts|
  {
    var init := parts[..|parts| - 1];
    if i == |parts| - 1 {
      assert parts[..i] == init;
    } else {
      assert init[..i] == parts[..i];
      FlattenAt(init, i, m);
    }
  }

  /** Each row's entries. */
  function RowEntries(rows: seq<Record>): (r: seq<seq<Record>>)
    requires Expandable(rows)
    ensures |r| == |rows|
    ensures forall i :: 0 <= i < |rows| ==> r[i] == Entries(Base(rows[i]), Value(rows[i], Data).items)
  {
    seq(|rows|, i requires 0 <= i < |rows| => Entries(Base(rows[i]), Value(rows[i], Data).items))
  }

  /** The expanded rows: every row's entries, rows in order. */
  function Expanded(rows: seq<Record>): seq<Record>
    requires Expandable(rows)
  {
    Flatten(RowEntries(rows))
  }

  /** The number of items in the `data` lists of the first n rows. */
  function ItemsBefore(rows: seq<Record>, n: nat): nat
    requires Expandable(rows) && n <= |rows|
  {
    if n == 0 then 0 else ItemsBefore(rows, n - 1) + |Value(rows[n - 1], Data).items|
  }

  const KeyErrorStartTime: string := "KeyError: startTime"
  const KeyErrorSettlementPeriod: string := "KeyError: settlementPeriod"
  const NotAList: string := "TypeError: data is not a list of objects"

  /**
   * The expansion loop: for each row, for each item of its `data` list, the
   * row's start time and settlement period updated by the item.  The frame
   * is returned unchanged when there is nothing nested; a missing base
   * column or a `data` value that is not a list of objects raises.
   */
  method ExpandNested(rows: seq<Record>) returns (r: Result<seq<Record>, string>)
    ensures !NestedData(rows) ==> r == Ok(rows)
    ensures NestedData(rows) && !HasColumn(rows, StartTime) ==> r == Err(KeyErrorStartTime)
    ensures NestedData(rows) && HasColumn(rows, StartTime) && !HasColumn(rows, SettlementPeriod) ==>
      r == Err(KeyErrorSettlementPeriod)
    ensures NestedData(rows) && HasColumn(rows, StartTime) && HasColumn(rows, SettlementPeriod) ==>
      (r.Ok? <==> Expandable(rows)) && (r.Err? ==> r.error == NotAList)
    ensures NestedData(rows) && r.Ok? ==> Expandable(rows) && r.value == Expanded(rows)
  {
    var hasData := HasColumnOf(rows, Data);
    if !hasData || !Value(rows[0], Data).JArr? {
      return Ok(rows);
    }
    var hasStart := HasColumnOf(rows, StartTime);
    if !hasStart {
      return Err(KeyErrorStartTime);
    }
    var hasPeriod := HasColumnOf(rows, SettlementPeriod);
    if !hasPeriod {
      return Err(KeyErrorSettlementPeriod);
    }
    var expanded: seq<Record> := [];
    var i := 0;
    while i < |rows|
      invariant 0 <= i <= |rows|
      invariant Expandable(rows[..i])
      invariant expanded == Expanded(rows[..i])
    {
      var data := Value(rows[i], Data);
      if !ObjectList(data) {
        assert !ObjectList(Value(rows[i], Data));
        return Err(NotAList);
      }
      expanded := AppendEntries(expanded, Base(rows[i]), data.items);
      ExpandedStep(rows, i);
      i := i + 1;
    }
    assert rows[..i] == rows;
    return Ok(expanded);
  }

  /** The inner loop: one entry per item, appended in item order. */
  method AppendEntries(expanded: seq<Record>, base: Record, items: seq<Json>) returns (out: seq<Record>)
    requires forall k :: 0 <= k < |items| ==> items[k].JObj?
    ensures out == expanded + Entries(base, items)
  {
    out := expanded;
    var m := 0;
    while m < |items|
      invariant 0 <= m <= |items|
      invariant out == expanded + Entries(base, items[..m])
    {
      EntriesStep(base, items, m);
      out := out + [Update(base, items[m].fields)];
      m := m + 1;
    }
    assert items[..m] == items;
  }

  lemma EntriesStep(base: Record, items: seq<Json>, m: nat)
    requires forall k :: 0 <= k < |items| ==> items[k].JObj?
    requires m < |items|
    ensures Entries(base, items[..m + 1]) == Entries(base, items[..m]) + [Update(base, items[m].fields)]
  {
    assert items[..m + 1][..m] == items[..m];
  }

  lemma ExpandedStep(rows: seq<Record>, i: nat)
    requires i < |rows| && Expandable(rows[..i]) && ObjectList(Value(rows[i], Data))
    ensures Expandable(rows[..i + 1])
    ensures Expanded(rows[..i + 1]) == Expanded(rows[..i]) + Entries(Base(rows[i]), Value(rows[i], Data).items)
  {
    var next := rows[..i + 1];
    forall k | 0 <= k < i + 1
      ensures ObjectList(Value(next[k], Data))
    {
      if k < i {
        assert next[k] == rows[..i][k];
      }
    }
    assert next[..i] == rows[..i];
    assert next[i] == rows[i];
    assert RowEntries(next)[..i] == RowEntries(rows[..i]);
  }

  /** `key in df.columns`, by a scan over the records. */
  method HasColumnOf(rows: seq<Record>, key: string) returns (b: bool)
    ensures b <==> HasColumn(rows, key)
  {
    var i := 0;
    while i < |rows|
      invariant 0 <= i <= |rows|
      invariant forall k :: 0 <= k < i ==> !HasKey(rows[k], key)
    {
      if HasKey(rows[i], key) {
        return true;
      }
      i := i + 1;
    }
    return false;
  }

  /** The total length of the first n parts. */
  function LengthsBefore<T>(parts: seq<seq<T>>, n: nat): nat
    requires n <= |parts|
  {
    if n == 0 then 0 else LengthsBefore(parts, n - 1) + |parts[n - 1]|
  }

  lemma {:induction false} FlattenLength<T>(parts: seq<seq<T>>, n: nat)
    requires n <= |parts|
    ensures |Flatten(parts[..n])| == LengthsBefore(parts, n)
  {
    if n > 0 {
      FlattenLength(parts, n - 1);
      assert parts[..n][..n - 1] == parts[..n - 1];
    }
  }

  lemma EntryLengths(rows: seq<Record>, n: nat)
    requires Expandable(rows) && n <= |rows|
    ensures LengthsBefore(RowEntries(rows), n) == ItemsBefore(rows, n)
  {
    var parts := RowEntries(rows);
    var k := 0;
    while k < n
      invariant 0 <= k <= n
      invariant LengthsBefore(parts, k) == ItemsBefore(rows, k)
    {
      assert |parts[k]| == |Value(rows[k], Data).items|;
      k := k + 1;
    }
  }

  /** The expanded frame has one row per item of every row's `data` list. */
  lemma ExpandedLength(rows: seq<Record>)
    requires Expandable(rows)
    ensures |Expanded(rows)| == ItemsBefore(rows, |rows|)
  {
    var parts := RowEntries(rows);
    FlattenLength(parts, |rows|);
    assert parts[..|rows|] == parts;
    EntryLengths(rows, |rows|);
  }

  /**
   * Outer order then inner order: item m of row i lands after the items of
   * the rows before it and the items before it in its own row.
   */
  lemma ExpandedAt(rows: seq<Record>, i: nat, m: nat)
    requires Expandable(rows) && i < |rows| && m < |Value(rows[i], Data).items|
    ensures ItemsBefore(rows, i) + m < |Expanded(rows)|
    ensures Expanded(rows)[ItemsBefore(rows, i) + m] == Update(Base(rows[i]), Value(rows[i], Data).items[m].fields)
  {
    var items := Value(rows[i], Data).items;
    var part := RowEntries(rows)[i];
    assert part == Entries(Base(rows[i]), items);
    ExpandedPart(rows, i, m);
  }

  /** Element m of row i's entries, in the expanded frame. */
  lemma ExpandedPart(rows: seq<Record>, i: nat, m: nat)
    requires Expandable(rows) && i < |rows| && m < |RowEntries(rows)[i]|
    ensures ItemsBefore(rows, i) + m < |Expanded(rows)|
    ensures Expanded(rows)[ItemsBefore(rows, i) + m] == RowEntries(rows)[i][m]
  {
    var parts := RowEntries(rows);
    ExpandedOffset(rows, i);
    FlattenAt(parts, i, m);
    var j := |Flatten(parts[..i])| + m;
    assert j == ItemsBefore(rows, i) + m;
    assert Expanded(rows) == Flatten(parts);
    assert Expanded(rows)[j] == parts[i][m];
  }

  /** The entries of the rows before row i fill the first ItemsBefore(rows, i) places. */
  lemma ExpandedOffset(rows: seq<Record>, i: nat)
    requires Expandable(rows) && i <= |rows|
    ensures |Flatten(RowEntries(rows)[..i])| == ItemsBefore(rows, i)
  {
    FlattenLength(RowEntries(rows), i);
    EntryLengths(rows, i);
  }

  /**
   * An expanded row takes each key from its item when the item has it, and
   * otherwise the start time and settlement period from the outer row.
   */
  lemma ItemOverridesBase(row: Record, item: Record, key: string)
    requires DistinctKeys(item)
    ensures Get(Update(Base(row), item), key) ==
      if HasKey(item, key) then Get(item, key)
      else if key == StartTime then Some(Value(row, StartTime))
      else if key == SettlementPeriod then Some(Value(row, SettlementPeriod))
      else None
  {
    UpdateGet(Base(row), item, key);
  }

  // ---------------------------------------------------------------------
  // The fuel column renames

  const PsrType: string := "psrType"
  const FuelTypeColumn: string := "fuelType"
  const Generation: string := "generation"
  const Quantity: string := "quantity"
  const MissingFuelColumns: string := "FUELHH payload missing 'fuelType' or 'quantity' columns."

  /** `df.rename(columns={from: to})`, done only when no column is labelled `to` yet. */
  function RenameIfAbsent(columns: seq<string>, from: string, to: string): (r: seq<string>)
    requires from != to
    ensures |r| == |columns|
    ensures to in columns ==> r == columns
    ensures forall j :: 0 <= j < |columns| && columns[j] != from ==> r[j] == columns[j]
    ensures to in r <==> to in columns || from in columns
    ensures from in r <==> from in columns && to in columns
  {
    if to !in columns && from in columns then DataLoader.Rename(columns, from, to) else columns
  }

  /**
   * The fuel frame's labels: `psrType` becomes `fuelType` and `generation`
   * becomes `quantity`, each only when the target is absent; the page
   * reports an error unless both targets are then present.
   */
  function FuelColumns(columns: seq<string>): (r: Result<seq<string>, string>)
    ensures r.Ok? <==> (FuelTypeColumn in columns || PsrType in columns) && (Quantity in columns || Generation in columns)
    ensures r.Err? ==> r.error == MissingFuelColumns
    ensures r.Ok? ==> FuelTypeColumn in r.value && Quantity in r.value && |r.value| == |columns|
    ensures r.Ok? ==> forall j :: 0 <= j < |columns| && columns[j] != PsrType && columns[j] != Generation ==>
      r.value[j] == columns[j]
    ensures r.Ok? && FuelTypeColumn in columns && Quantity in columns ==> r.value == columns
  {
    var renamed := RenameIfAbsent(RenameIfAbsent(columns, PsrType, FuelTypeColumn), Generation, Quantity);
    if FuelTypeColumn in renamed && Quantity in renamed then Ok(renamed) else Err(MissingFuelColumns)
  }

  /** Renaming a frame whose labels were already renamed changes nothing. */
  lemma FuelColumnsIdempotent(columns: seq<string>)
    requires FuelColumns(columns).Ok?
    ensures FuelColumns(FuelColumns(columns).value) == FuelColumns(columns)
  {
  }

  // ---------------------------------------------------------------------
  // Wind and solar totals

  const WindOffshore: string := "Wind Offshore"
  const WindOnshore: string := "Wind Onshore"
  const Solar: string := "Solar"
  const WindTotal: string := "Wind Total"
  const WindPlusSolar: string := "Wind+Solar"

  /** Element-wise `+` of two cells: numbers add, anything else gives NaN. */
  function Plus(a: Cell, b: Cell): (r: Cell)
    ensures a.Num? && b.Num? ==> r == Num(a.x + b.x)
    ensures !(a.Num? && b.Num?) ==> r == Missing
  {
    if a.Num? && b.Num? then Num(a.x + b.x) else Missing
  }

  /** Element-wise `+` of two columns of one frame. */
  function PlusColumns(a: seq<Cell>, b: seq<Cell>): (r: seq<Cell>)
    requires |a| == |b|
    ensures |r| == |a| && forall i :: 0 <= i < |a| ==> r[i] == Plus(a[i], b[i])
  {
    seq(|a|, i requires 0 <= i < |a| => Plus(a[i], b[i]))
  }

  /** `Wind Total` is added when both wind columns are present. */
  function WithWindTotal(c: FeatureBuilder.Columns): FeatureBuilder.Columns
  {
    if WindOffshore in c.cells && WindOnshore in c.cells
       && |c.cells[WindOffshore]| == |c.cells[WindOnshore]| then
      FeatureBuilder.Assign(c, WindTotal, PlusColumns(c.cells[WindOffshore], c.cells[WindOnshore]))
    else c
  }

  /** `Wind+Solar` is added when `Solar` is present, from `Wind Total` if there is one, else from both wind columns. */
  function WithWindPlusSolar(c: FeatureBuilder.Columns): FeatureBuilder.Columns
  {
    if Solar !in c.cells then c
    else if WindTotal in c.cells && |c.cells[WindTotal]| == |c.cells[Solar]| then
      FeatureBuilder.Assign(c, WindPlusSolar, PlusColumns(c.cells[WindTotal], c.cells[Solar]))
    else if WindOffshore in c.cells && WindOnshore in c.cells
       && |c.cells[WindOffshore]| == |c.cells[WindOnshore]| == |c.cells[Solar]| then
      FeatureBuilder.Assign(c, WindPlusSolar,
        PlusColumns(PlusColumns(c.cells[WindOffshore], c.cells[WindOnshore]), c.cells[Solar]))
    else c
  }

  function WithWindSolar(c: FeatureBuilder.Columns): FeatureBuilder.Columns
  {
    WithWindPlusSolar(WithWindTotal(c))
  }

  /** The derived columns of the wind-and-solar pivot, added in place. */
  method AddWindSolar(pivot: FeatureBuilder.FeatureFrame)
    requires pivot.Valid()
    modifies pivot
    ensures pivot.View() == WithWindSolar(old(pivot.View()))
    ensures pivot.Valid() && pivot.rows == old(pivot.rows)
  {
    ghost var start := pivot.View();
    if WindOffshore in pivot.cells && WindOnshore in pivot.cells {
      pivot.Set(WindTotal, PlusColumns(pivot.cells[WindOffshore], pivot.cells[WindOnshore]));
    }
    assert pivot.View() == WithWindTotal(start);
    if Solar in pivot.cells {
      if WindTotal in pivot.cells {
        pivot.Set(WindPlusSolar, PlusColumns(pivot.cells[WindTotal], pivot.cells[Solar]));
      } else if WindOffshore in pivot.cells && WindOnshore in pivot.cells {
        // Wind Total was added above whenever both wind columns exist.
        assert false;
      }
    }
  }

  /** Assigning a column of the frame's length keeps the frame well formed. */
  lemma AssignWellFormed(c: FeatureBuilder.Columns, name: string, values: seq<Cell>, n: nat)
    requires FeatureBuilder.WellFormed(c, n) && |values| == n
    ensures FeatureBuilder.WellFormed(FeatureBuilder.Assign(c, name, values), n)
  {
    var r := FeatureBuilder.Assign(c, name, values);
    if name !in c.names {
      assert r.cells.Keys == c.cells.Keys + {name};
    } else {
      assert r.cells.Keys == c.cells.Keys;
    }
  }

  /** The first step: `Wind Total` is there afterwards when it was or both wind columns are. */
  lemma WindTotalColumn(c: FeatureBuilder.Columns, n: nat)
    requires FeatureBuilder.WellFormed(c, n)
    ensures FeatureBuilder.WellFormed(WithWindTotal(c), n)
    ensures WindTotal in WithWindTotal(c).cells <==>
      WindTotal in c.cells || (WindOffshore in c.cells && WindOnshore in c.cells)
    ensures WindOffshore in c.cells && WindOnshore in c.cells ==>
      WithWindTotal(c).cells[WindTotal] == PlusColumns(c.cells[WindOffshore], c.cells[WindOnshore])
    ensures forall k :: k in c.cells && k != WindTotal ==> k in WithWindTotal(c).cells && WithWindTotal(c).cells[k] == c.cells[k]
    ensures forall k :: k in WithWindTotal(c).cells && k != WindTotal ==> k in c.cells
  {
    if WindOffshore in c.cells && WindOnshore in c.cells {
      AssignWellFormed(c, WindTotal, PlusColumns(c.cells[WindOffshore], c.cells[WindOnshore]), n);
    }
  }

  /** The second step: `Wind+Solar` is there afterwards when it was or `Solar` is with a wind total or both wind columns. */
  lemma WindPlusSolarColumn(t: FeatureBuilder.Columns, n: nat)
    requires FeatureBuilder.WellFormed(t, n)
    ensures FeatureBuilder.WellFormed(WithWindPlusSolar(t), n)
    ensures WindPlusSolar in WithWindPlusSolar(t).cells <==>
      WindPlusSolar in t.cells
      || (Solar in t.cells && (WindTotal in t.cells || (WindOffshore in t.cells && WindOnshore in t.cells)))
    ensures WindTotal in t.cells && Solar in t.cells ==>
      WithWindPlusSolar(t).cells[WindPlusSolar] == PlusColumns(t.cells[WindTotal], t.cells[Solar])
    ensures forall k :: k in t.cells && k != WindPlusSolar ==> k in WithWindPlusSolar(t).cells && WithWindPlusSolar(t).cells[k] == t.cells[k]
  {
    if Solar in t.cells {
      if WindTotal in t.cells {
        AssignWellFormed(t, WindPlusSolar, PlusColumns(t.cells[WindTotal], t.cells[Solar]), n);
      } else if WindOffshore in t.cells && WindOnshore in t.cells {
        AssignWellFormed(t, WindPlusSolar,
          PlusColumns(PlusColumns(t.cells[WindOffshore], t.cells[WindOnshore]), t.cells[Solar]), n);
      }
    }
  }

  /**
   * `Wind Total` exists afterwards exactly when it did or both wind columns
   * do, and then holds their row-by-row sum; `Wind+Solar` exists exactly
   * when it did or `Solar` does with a wind total, and with all three
   * inputs it holds offshore + onshore + solar.  Every other column, and
   * the number of rows, are unchanged.
   */
  lemma WindSolarColumns(c: FeatureBuilder.Columns, n: nat)
    requires FeatureBuilder.WellFormed(c, n)
    ensures FeatureBuilder.WellFormed(WithWindSolar(c), n)
    ensures WindTotal in WithWindSolar(c).cells <==>
      WindTotal in c.cells || (WindOffshore in c.cells && WindOnshore in c.cells)
    ensures WindOffshore in c.cells && WindOnshore in c.cells ==>
      WithWindSolar(c).cells[WindTotal] == PlusColumns(c.cells[WindOffshore], c.cells[WindOnshore])
    ensures WindPlusSolar in WithWindSolar(c).cells <==>
      WindPlusSolar in c.cells
      || (Solar in c.cells && (WindTotal in c.cells || (WindOffshore in c.cells && WindOnshore in c.cells)))
    ensures WindOffshore in c.cells && WindOnshore in c.cells && Solar in c.cells ==>
      WithWindSolar(c).cells[WindPlusSolar]
        == PlusColumns(PlusColumns(c.cells[WindOffshore], c.cells[WindOnshore]), c.cells[Solar])
    ensures forall k :: k in c.cells && k != WindTotal && k != WindPlusSolar ==> WithWindSolar(c).cells[k] == c.cells[k]
  {
    var t := WithWindTotal(c);
    WindTotalColumn(c, n);
    WindPlusSolarColumn(t, n);
    assert Solar in t.cells <==> Solar in c.cells;
    assert WindPlusSolar in t.cells <==> WindPlusSolar in c.cells;
  }

  /** The derived value of each row, when the inputs are numbers. */
  lemma WindSolarRow(c: FeatureBuilder.Columns, n: nat, i: nat)
    requires FeatureBuilder.WellFormed(c, n) && i < n
    requires WindOffshore in c.cells && WindOnshore in c.cells && Solar in c.cells
    requires c.cells[WindOffshore][i].Num? && c.cells[WindOnshore][i].Num? && c.cells[Solar][i].Num?
    ensures WithWindSolar(c).cells[WindTotal][i] == Num(c.cells[WindOffshore][i].x + c.cells[WindOnshore][i].x)
    ensures WithWindSolar(c).cells[WindPlusSolar][i]
      == Num(c.cells[WindOffshore][i].x + c.cells[WindOnshore][i].x + c.cells[Solar][i].x)
  {
    WindSolarColumns(c, n);
    var wind := PlusColumns(c.cells[WindOffshore], c.cells[WindOnshore]);
    assert wind[i] == Num(c.cells[WindOffshore][i].x + c.cells[WindOnshore][i].x);
    var both := PlusColumns(wind, c.cells[Solar]);
    assert both[i] == Plus(wind[i], c.cells[Solar][i]);
  }

  /** Assigning a column the values it already holds changes nothing. */
  lemma AssignSame(c: FeatureBuilder.Columns, name: string, n: nat)
    requires FeatureBuilder.WellFormed(c, n) && name in c.cells
    ensures FeatureBuilder.Assign(c, name, c.cells[name]) == c
  {
    assert c.cells[name := c.cells[name]] == c.cells;
  }

  /** Deriving the columns again recomputes the same values. */
  lemma WindSolarIdempotent(c: FeatureBuilder.Columns, n: nat)
    requires FeatureBuilder.WellFormed(c, n)
    ensures WithWindSolar(WithWindSolar(c)) == WithWindSolar(c)
  {
    var t := WithWindTotal(c);
    var once := WithWindPlusSolar(t);
    WindSolarColumns(c, n);
    assert FeatureBuilder.WellFormed(t, n);
    if WindOffshore in c.cells && WindOnshore in c.cells {
      assert once.cells[WindOffshore] == t.cells[WindOffshore] && once.cells[WindOnshore] == t.cells[WindOnshore];
      assert once.cells[WindTotal] == t.cells[WindTotal];
      AssignSame(once, WindTotal, n);
    }
    assert WithWindTotal(once) == once;
    if Solar in t.cells && WindTotal in t.cells {
      assert once.cells[WindTotal] == t.cells[WindTotal] && once.cells[Solar] == t.cells[Solar];
      AssignSame(once, WindPlusSolar, n);
    }
    assert WithWindPlusSolar(once) == once;
  }
}
