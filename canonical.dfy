/**
 * `transform_data` of src/transformation/data_transform.py and what it
 * guarantees: the rows gap filling builds lie on the 30-minute grid, and
 * transforming a transformed table changes nothing.
 */
module Canonical {
  import opened Wrappers
  import opened Frames
  import opened Transform

  /**
   * Slot k of a grid starting at lo: the instant lo + 30k minutes, then the
   * cells of the first entry at that instant, or missing cells when there
   * is none.
   */
  ghost predicate IsSlot(d: seq<Keyed>, lo: int, k: int, width: nat, row: seq<Cell>)
  {
    var time := lo + 30 * k;
    && |row| == width + 1
    && row[0] == Stamp(time)
    && row[1..] == (if Lookup(d, time).Some? then Lookup(d, time).value else Blank(width))
  }

  lemma SlotRowIsSlot(d: seq<Keyed>, lo: int, k: int, width: nat)
    requires forall i :: 0 <= i < |d| ==> |d[i].1| == width
    ensures IsSlot(d, lo, k, width, SlotRow(d, lo + 30 * k, width))
  {
    var time := lo + 30 * k;
    var tail := if Lookup(d, time).Some? then Lookup(d, time).value else Blank(width);
    assert SlotRow(d, time, width) == [Stamp(time)] + tail;
    assert ([Stamp(time)] + tail)[1..] == tail;
  }

  /** The grid rows: row k is slot k. */
  lemma GridSlots(d: seq<Keyed>, lo: int, n: nat, width: nat)
    requires forall i :: 0 <= i < |d| ==> |d[i].1| == width
    ensures forall k :: 0 <= k < n ==> IsSlot(d, lo, k, width, Grid(d, lo, n, width)[k])
  {
    forall k | 0 <= k < n
      ensures IsSlot(d, lo, k, width, Grid(d, lo, n, width)[k])
    {
      SlotRowIsSlot(d, lo, k, width);
    }
  }

  /** The reindexed rows: row k is slot k of the grid from the earliest instant. */
  lemma ReindexSlots(keyed: seq<Keyed>, width: nat)
    requires keyed != []
    requires forall i :: 0 <= i < |keyed| ==> |keyed[i].1| == width
    ensures |Reindex(keyed, width)| == SlotCount(keyed)
    ensures forall k :: 0 <= k < SlotCount(keyed) ==>
      IsSlot(keyed, MinTime(keyed), k, width, Reindex(keyed, width)[k])
  {
    GridSlots(keyed, MinTime(keyed), SlotCount(keyed), width);
  }

  /**
   * An entry whose instant is on the grid, k slots after the earliest,
   * lands in slot k with the cells of the first entry at that instant.
   */
  lemma EntryOnGrid(keyed: seq<Keyed>, width: nat, i: nat, k: nat)
    requires i < |keyed|
    requires forall j :: 0 <= j < |keyed| ==> |keyed[j].1| == width
    requires keyed[i].0 == MinTime(keyed) + 30 * k
    ensures k < |Reindex(keyed, width)|
    ensures Reindex(keyed, width)[k][1..] == Lookup(keyed, keyed[i].0).value
  {
    assert keyed[i].0 <= MaxTime(keyed);
    ReindexSlots(keyed, width);
    SlotOfEntry(keyed, MinTime(keyed), SlotCount(keyed), width, Reindex(keyed, width), i, k);
  }

  lemma SlotOfEntry(keyed: seq<Keyed>, lo: int, n: nat, width: nat, g: seq<seq<Cell>>, i: nat, k: nat)
    requires i < |keyed| && |g| == n
    requires forall j :: 0 <= j < n ==> IsSlot(keyed, lo, j, width, g[j])
    requires keyed[i].0 == lo + 30 * k < lo + 30 * n
    ensures k < n && |g[k]| == width + 1 && g[k][1..] == Lookup(keyed, keyed[i].0).value
  {
    assert k < n;
    var time := lo + 30 * k;
    assert keyed[i].0 == time;
    assert Lookup(keyed, time).Some?;
    assert IsSlot(keyed, lo, k, width, g[k]);
    assert g[k][1..] == Lookup(keyed, time).value;
  }

  /** Row k starts with the instant lo + 30k minutes. */
  ghost predicate OnGrid(rows: seq<seq<Cell>>, lo: int)
  {
    forall k :: 0 <= k < |rows| ==> |rows[k]| > 0 && rows[k][0] == Stamp(lo + 30 * k)
  }

  /** Rows on the 30-minute grid that starts at the first row's instant. */
  ghost predicate HalfHourly(rows: seq<seq<Cell>>)
  {
    rows == [] || (|rows[0]| > 0 && rows[0][0].Stamp? && OnGrid(rows, rows[0][0].t))
  }

  /** Half-hourly rows: each instant is 30 minutes after the one before. */
  lemma HalfHourlySpacing(rows: seq<seq<Cell>>)
    requires HalfHourly(rows)
    ensures StampedAt(rows, 0) && Ascending(rows, 0)
    ensures forall k :: 0 < k < |rows| ==> rows[k][0].t == rows[k - 1][0].t + 30
  {
  }

  /** The reindexed rows are half-hourly. */
  lemma ReindexHalfHourly(keyed: seq<Keyed>, width: nat)
    requires forall i :: 0 <= i < |keyed| ==> |keyed[i].1| == width
    ensures HalfHourly(Reindex(keyed, width))
  {
    if keyed != [] {
      ReindexSlots(keyed, width);
      SlotsOnGrid(keyed, MinTime(keyed), width, Reindex(keyed, width));
    }
  }

  lemma SlotsOnGrid(d: seq<Keyed>, lo: int, width: nat, rows: seq<seq<Cell>>)
    requires forall k :: 0 <= k < |rows| ==> IsSlot(d, lo, k, width, rows[k])
    ensures OnGrid(rows, lo)
  {
    forall k | 0 <= k < |rows|
      ensures |rows[k]| > 0 && rows[k][0] == Stamp(lo + 30 * k)
    {
      assert IsSlot(d, lo, k, width, rows[k]);
    }
  }

  /** The rows gap filling builds from rows with instants in column c are half-hourly. */
  lemma KeyedHalfHourly(rows: seq<seq<Cell>>, c: nat, width: nat)
    requires StampedAt(rows, c)
    requires forall i :: 0 <= i < |rows| ==> |rows[i]| == width + 1
    ensures HalfHourly(Reindex(KeyRows(rows, c), width))
  {
    var keyed := KeyRows(rows, c);
    assert forall i :: 0 <= i < |keyed| ==> |keyed[i].1| == width;
    ReindexHalfHourly(keyed, width);
  }

  /** `transform_data`: the gap filling applied to the normalised table. */
  function TransformData(t: Table, parse: Cell -> int): (r: Table)
    requires Rectangular(t)
    ensures Rectangular(r)
    ensures TimeColumn(t.columns).None? ==> r == t
    ensures TimeColumn(t.columns).Some? ==>
      var c := TimeColumn(t.columns).value;
      && r.columns == [t.columns[c]] + RemoveAt(t.columns, c)
      && HalfHourly(r.rows)
  {
    var normalized := NormalizeTimestamp(t, parse);
    match TimeColumn(t.columns)
    case None => t
    case Some(c) =>
      var width := |t.columns| - 1;
      assert forall i :: 0 <= i < |normalized.rows| ==> |normalized.rows[i]| == width + 1;
      KeyedHalfHourly(normalized.rows, c, width);
      FillMissingGaps(normalized).value
  }

  /** Keying rows on the grid from lo: entry k is at lo + 30k and holds the rest of row k. */
  lemma GridKeys(rows: seq<seq<Cell>>, lo: int)
    requires OnGrid(rows, lo)
    ensures StampedAt(rows, 0)
    ensures forall k :: 0 <= k < |rows| ==> KeyRows(rows, 0)[k] == (lo + 30 * k, rows[k][1..])
  {
    var keyed := KeyRows(rows, 0);
    forall k | 0 <= k < |rows|
      ensures keyed[k] == (lo + 30 * k, rows[k][1..])
    {
      assert RemoveAt(rows[k], 0) == rows[k][1..];
    }
  }

  /** Entries at lo, lo + 30, ...: the earliest is lo and there is one slot per entry. */
  lemma GridBounds(keyed: seq<Keyed>, lo: int)
    requires keyed != []
    requires forall k :: 0 <= k < |keyed| ==> keyed[k].0 == lo + 30 * k
    ensures MinTime(keyed) == lo && SlotCount(keyed) == |keyed|
  {
    var m := MinTime(keyed);
    var i :| 0 <= i < |keyed| && keyed[i].0 == m;
    assert m <= keyed[0].0;
    var x := MaxTime(keyed);
    var j :| 0 <= j < |keyed| && keyed[j].0 == x;
    assert keyed[|keyed| - 1].0 <= x;
  }

  /** Entries at lo, lo + 30, ...: the entry found at lo + 30k is entry k. */
  lemma GridLookup(keyed: seq<Keyed>, lo: int, k: nat)
    requires k < |keyed|
    requires forall j :: 0 <= j < |keyed| ==> keyed[j].0 == lo + 30 * j
    ensures Lookup(keyed, lo + 30 * k) == Some(keyed[k].1)
  {
    var f := FirstAt(keyed, lo + 30 * k);
    assert keyed[k].0 == lo + 30 * k;
    assert f.Some? && f.value == k;
  }

  /** Slots of the grid from lo over the keyed rows on that grid are those rows. */
  lemma SlotsOfGrid(rows: seq<seq<Cell>>, keyed: seq<Keyed>, lo: int, width: nat, g: seq<seq<Cell>>)
    requires OnGrid(rows, lo)
    requires forall k :: 0 <= k < |rows| ==> |rows[k]| == width + 1
    requires |keyed| == |rows| && |g| == |rows|
    requires forall k :: 0 <= k < |rows| ==> keyed[k] == (lo + 30 * k, rows[k][1..])
    requires forall k :: 0 <= k < |g| ==> IsSlot(keyed, lo, k, width, g[k])
    ensures g == rows
  {
    forall k | 0 <= k < |rows|
      ensures g[k] == rows[k]
    {
      GridLookup(keyed, lo, k);
      assert IsSlot(keyed, lo, k, width, g[k]);
      assert g[k] == [g[k][0]] + g[k][1..];
      assert rows[k] == [rows[k][0]] + rows[k][1..];
    }
  }

  /** Gap filling leaves rows that are already on the 30-minute grid as they are. */
  lemma ReindexOfGrid(rows: seq<seq<Cell>>, lo: int, width: nat)
    requires OnGrid(rows, lo)
    requires forall k :: 0 <= k < |rows| ==> |rows[k]| == width + 1
    ensures StampedAt(rows, 0) && Reindex(KeyRows(rows, 0), width) == rows
  {
    GridKeys(rows, lo);
    var keyed := KeyRows(rows, 0);
    if rows != [] {
      assert forall k :: 0 <= k < |keyed| ==> |keyed[k].1| == width;
      GridBounds(keyed, lo);
      ReindexSlots(keyed, width);
      SlotsOfGrid(rows, keyed, lo, width, Reindex(keyed, width));
    }
  }

  /** Normalising a table whose time cells are instants in ascending order changes nothing. */
  lemma NormalizeOfSorted(t: Table, parse: Cell -> int, c: nat)
    requires Rectangular(t) && TimeColumn(t.columns) == Some(c)
    requires StampedAt(t.rows, c) && Ascending(t.rows, c)
    ensures NormalizeTimestamp(t, parse) == t
  {
    var converted := ConvertRows(t.rows, c, parse);
    forall i | 0 <= i < |t.rows|
      ensures converted[i] == t.rows[i]
    {
      assert t.rows[i][c] == Stamp(ToStamp(t.rows[i][c], parse));
    }
    assert converted == t.rows;
    SortRowsOfAscending(t.rows, c);
  }

  /** Half-hourly rows are their own reindexing. */
  lemma HalfHourlyFixed(rows: seq<seq<Cell>>, width: nat)
    requires HalfHourly(rows)
    requires forall k :: 0 <= k < |rows| ==> |rows[k]| == width + 1
    ensures StampedAt(rows, 0) && Reindex(KeyRows(rows, 0), width) == rows
  {
    HalfHourlySpacing(rows);
    if rows == [] {
      assert KeyRows(rows, 0) == [];
    } else {
      ReindexOfGrid(rows, rows[0][0].t, width);
    }
  }

  /** Gap filling a table led by its time column whose rows are their own reindexing changes nothing. */
  lemma FillOfGrid(t: Table)
    requires Rectangular(t) && TimeColumn(t.columns) == Some(0) && StampedAt(t.rows, 0)
    requires Reindex(KeyRows(t.rows, 0), |t.columns| - 1) == t.rows
    ensures FillMissingGaps(t) == Ok(t)
  {
    FirstBack(t.columns);
    var f := FillMissingGaps(t);
    assert f.Ok?;
    assert f.value.columns == t.columns;
    assert f.value.rows == t.rows;
  }

  /** Removing the first element and putting it back in front restores the sequence. */
  lemma FirstBack<T>(s: seq<T>)
    requires s != []
    ensures [s[0]] + RemoveAt(s, 0) == s
  {
  }

  /** The time column put first is found first. */
  lemma TimeColumnFirst(columns: seq<string>)
    requires columns != [] && MarksTime(columns[0])
    ensures TimeColumn(columns) == Some(0)
  {
  }

  /** `transform_data` applied to its own output returns that output. */
  lemma TransformIdempotent(t: Table, parse: Cell -> int)
    requires Rectangular(t)
    ensures TransformData(TransformData(t, parse), parse) == TransformData(t, parse)
  {
    var out := TransformData(t, parse);
    if TimeColumn(t.columns).Some? {
      TimeColumnFirst(out.columns);
      HalfHourlySpacing(out.rows);
      NormalizeOfSorted(out, parse, 0);
      HalfHourlyFixed(out.rows, |out.columns| - 1);
      FillOfGrid(out);
    }
  }
}
