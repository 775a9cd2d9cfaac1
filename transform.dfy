/**
 * The canonicaliser of src/transformation/data_transform.py.
 * `normalize_timestamp` converts the time column to instants and sorts by
 * it; `fill_missing_gaps` moves the time column to the front, keeps the
 * first row of each instant and reindexes onto the 30-minute grid that
 * runs from the earliest instant to the latest, with missing cells in the
 * slots no row fills; `transform_data` is the two in sequence.
 */
module Transform {
  import opened Wrappers
  import opened Frames

  const SlotMinutes: int := 30

  /** `pd.to_datetime` on one cell: an instant stays itself, anything else goes through the given parser. */
  function ToStamp(cell: Cell, parse: Cell -> int): (r: int)
    ensures cell.Stamp? ==> r == cell.t
  {
    if cell.Stamp? then cell.t else parse(cell)
  }

  /** Every row holds an instant in column c. */
  predicate StampedAt(rows: seq<seq<Cell>>, c: nat)
  {
    forall i :: 0 <= i < |rows| ==> c < |rows[i]| && rows[i][c].Stamp?
  }

  /** Rows in ascending order of their instant in column c. */
  ghost predicate Ascending(rows: seq<seq<Cell>>, c: nat)
    requires StampedAt(rows, c)
  {
    forall i, j :: 0 <= i < j < |rows| ==> rows[i][c].t <= rows[j][c].t
  }

  /** Inserts x after every row whose instant is not later than x's. */
  function Insert(rows: seq<seq<Cell>>, x: seq<Cell>, c: nat): (r: seq<seq<Cell>>)
    requires StampedAt(rows, c) && Ascending(rows, c)
    requires c < |x| && x[c].Stamp?
    ensures |r| == |rows| + 1
    ensures multiset(r) == multiset(rows) + multiset{x}
    ensures StampedAt(r, c) && Ascending(r, c)
    decreases |rows|
  {
    if rows == [] || rows[|rows| - 1][c].t <= x[c].t then
      assert forall i :: 0 <= i < |rows| ==> rows[i][c].t <= rows[|rows| - 1][c].t;
      AppendAscending(rows, x, c);
      rows + [x]
    else
      var init := rows[..|rows| - 1];
      var last := rows[|rows| - 1];
      assert rows == init + [last];
      var r := Insert(init, x, c);
      assert multiset(r) == multiset(init + [x]);
      NotLaterThan(r, init + [x], c, last[c].t);
      AppendAscending(r, last, c);
      r + [last]
  }

  /** Appending a row not earlier than the last keeps the order. */
  lemma AppendAscending(rows: seq<seq<Cell>>, x: seq<Cell>, c: nat)
    requires StampedAt(rows, c) && Ascending(rows, c)
    requires c < |x| && x[c].Stamp?
    requires forall i :: 0 <= i < |rows| ==> rows[i][c].t <= x[c].t
    ensures StampedAt(rows + [x], c) && Ascending(rows + [x], c)
  {
  }

  /** A bound on the instants of s bounds those of any permutation of s. */
  lemma NotLaterThan(r: seq<seq<Cell>>, s: seq<seq<Cell>>, c: nat, bound: int)
    requires multiset(r) == multiset(s) && StampedAt(s, c)
    requires forall i :: 0 <= i < |s| ==> s[i][c].t <= bound
    ensures StampedAt(r, c)
    ensures forall i :: 0 <= i < |r| ==> r[i][c].t <= bound
  {
    forall i | 0 <= i < |r|
      ensures c < |r[i]| && r[i][c].Stamp? && r[i][c].t <= bound
    {
      assert r[i] in multiset(s) by { assert r[i] in multiset(r); }
      var j :| 0 <= j < |s| && s[j] == r[i];
    }
  }

  /** `sort_values(time_col)`, as a stable insertion sort. */
  function SortRows(rows: seq<seq<Cell>>, c: nat): (r: seq<seq<Cell>>)
    requires StampedAt(rows, c)
    ensures |r| == |rows|
    ensures multiset(r) == multiset(rows)
    ensures StampedAt(r, c) && Ascending(r, c)
  {
    if rows == [] then []
    else
      var init := rows[..|rows| - 1];
      assert rows == init + [rows[|rows| - 1]];
      Insert(SortRows(init, c), rows[|rows| - 1], c)
  }

  /** Rows already in order are left as they are. */
  lemma {:induction false} SortRowsOfAscending(rows: seq<seq<Cell>>, c: nat)
    requires StampedAt(rows, c) && Ascending(rows, c)
    ensures SortRows(rows, c) == rows
  {
    if rows != [] {
      var init := rows[..|rows| - 1];
      var last := rows[|rows| - 1];
      assert StampedAt(init, c) && Ascending(init, c);
      SortRowsOfAscending(init, c);
      assert init == [] || init[|init| - 1][c].t <= last[c].t;
      assert SortRows(rows, c) == Insert(init, last, c);
      assert rows == init + [last];
    }
  }

  /** Column c of every row converted to an instant. */
  function ConvertRows(rows: seq<seq<Cell>>, c: nat, parse: Cell -> int): (r: seq<seq<Cell>>)
    requires forall i :: 0 <= i < |rows| ==> c < |rows[i]|
    ensures |r| == |rows| && StampedAt(r, c)
    ensures forall i :: 0 <= i < |rows| ==> r[i] == rows[i][c := Stamp(ToStamp(rows[i][c], parse))]
  {
    seq(|rows|, i requires 0 <= i < |rows| => rows[i][c := Stamp(ToStamp(rows[i][c], parse))])
  }

  /**
   * `normalize_timestamp`: without a time column the table is returned as
   * it is; otherwise the rows, with their time cells converted, are put in
   * ascending order of time.
   */
  function NormalizeTimestamp(t: Table, parse: Cell -> int): (r: Table)
    requires Rectangular(t)
    ensures r.columns == t.columns && |r.rows| == |t.rows| && Rectangular(r)
    ensures TimeColumn(t.columns).None? ==> r == t
    ensures TimeColumn(t.columns).Some? ==>
      var c := TimeColumn(t.columns).value;
      && StampedAt(r.rows, c)
      && Ascending(r.rows, c)
      && multiset(r.rows) == multiset(ConvertRows(t.rows, c, parse))
  {
    match TimeColumn(t.columns)
    case None => t
    case Some(c) =>
      var converted := ConvertRows(t.rows, c, parse);
      var sorted := SortRows(converted, c);
      forall i | 0 <= i < |sorted|
        ensures |sorted[i]| == |t.columns|
      {
        assert sorted[i] in multiset(converted) by { assert sorted[i] in multiset(sorted); }
        var j :| 0 <= j < |converted| && converted[j] == sorted[i];
      }
      Table(t.columns, sorted)
  }

  /** A row keyed by its instant: (instant, the other cells). */
  type Keyed = (int, seq<Cell>)

  /** `set_index(time_col)`: each row split into its instant and the remaining cells. */
  function KeyRows(rows: seq<seq<Cell>>, c: nat): (r: seq<Keyed>)
    requires StampedAt(rows, c)
    ensures |r| == |rows|
    ensures forall i :: 0 <= i < |rows| ==> r[i] == (rows[i][c].t, RemoveAt(rows[i], c))
  {
    seq(|rows|, i requires 0 <= i < |rows| => (rows[i][c].t, RemoveAt(rows[i], c)))
  }

  /** The position of the first entry at the given instant. */
  function FirstAt(s: seq<Keyed>, time: int): (r: Option<nat>)
    ensures r.Some? ==> r.value < |s| && s[r.value].0 == time
    ensures r.Some? ==> forall j :: 0 <= j < r.value ==> s[j].0 != time
    ensures r.None? ==> forall j :: 0 <= j < |s| ==> s[j].0 != time
  {
    if s == [] then None
    else if s[0].0 == time then Some(0)
    else match FirstAt(s[1..], time)
      case None => None
      case Some(i) => Some(i + 1)
  }

  /** The other cells of the first entry at the given instant. */
  function Lookup(s: seq<Keyed>, time: int): (r: Option<seq<Cell>>)
    ensures r.Some? <==> FirstAt(s, time).Some?
    ensures r.Some? ==> r.value == s[FirstAt(s, time).value].1
  {
    match FirstAt(s, time)
    case Some(i) => Some(s[i].1)
    case None => None
  }

  /** r holds each instant once, and at every instant the cells of the first entry of s there. */
  ghost predicate KeepsFirst(s: seq<Keyed>, r: seq<Keyed>)
  {
    && (forall i, j :: 0 <= i < j < |r| ==> r[i].0 != r[j].0)
    && (forall time :: Lookup(r, time) == Lookup(s, time))
  }

  /** `df[~df.index.duplicated(keep='first')]` */
  function DropDuplicateTimes(s: seq<Keyed>): (r: seq<Keyed>)
    ensures |r| <= |s|
    ensures KeepsFirst(s, r)
  {
    if s == [] then []
    else
      var d := DropDuplicateTimes(s[..|s| - 1]);
      var r := if Lookup(d, s[|s| - 1].0).Some? then d else d + [s[|s| - 1]];
      DropStep(s, d);
      r
  }

  lemma DropStep(s: seq<Keyed>, d: seq<Keyed>)
    requires s != [] && KeepsFirst(s[..|s| - 1], d)
    ensures KeepsFirst(s, if Lookup(d, s[|s| - 1].0).Some? then d else d + [s[|s| - 1]])
  {
    var init, last := s[..|s| - 1], s[|s| - 1];
    assert s == init + [last];
    forall time
      ensures Lookup(s, time) == if Lookup(init, time).Some? then Lookup(init, time)
                                  else if last.0 == time then Some(last.1) else None
    {
      LookupAppend(init, last, time);
    }
    if Lookup(d, last.0).None? {
      var r := d + [last];
      forall time
        ensures Lookup(r, time) == if Lookup(d, time).Some? then Lookup(d, time)
                                    else if last.0 == time then Some(last.1) else None
      {
        LookupAppend(d, last, time);
      }
      forall i, j | 0 <= i < j < |r|
        ensures r[i].0 != r[j].0
      {
        if j == |d| {
          assert r[i] == d[i];
        }
      }
    }
  }

  lemma LookupAppend(s: seq<Keyed>, x: Keyed, time: int)
    ensures Lookup(s + [x], time) == if Lookup(s, time).Some? then Lookup(s, time)
                                     else if x.0 == time then Some(x.1) else None
  {
    FirstAtAppend(s, x, time);
    if FirstAt(s, time).Some? {
      assert (s + [x])[FirstAt(s, time).value] == s[FirstAt(s, time).value];
    }
  }

  lemma {:induction false} FirstAtAppend(s: seq<Keyed>, x: Keyed, time: int)
    ensures FirstAt(s + [x], time) == if FirstAt(s, time).Some? then FirstAt(s, time)
                                      else if x.0 == time then Some(|s|) else None
  {
    if s != [] {
      assert (s + [x])[1..] == s[1..] + [x];
      FirstAtAppend(s[1..], x, time);
    }
  }

  /** The earliest instant (`index.min()`). */
  function MinTime(s: seq<Keyed>): (r: int)
    requires s != []
    ensures exists i :: 0 <= i < |s| && s[i].0 == r
    ensures forall i :: 0 <= i < |s| ==> r <= s[i].0
  {
    if |s| == 1 then s[0].0
    else
      var m := MinTime(s[1..]);
      assert forall i :: 1 <= i < |s| ==> s[i] == s[1..][i - 1];
      if s[0].0 <= m then s[0].0 else m
  }

  /** The latest instant (`index.max()`). */
  function MaxTime(s: seq<Keyed>): (r: int)
    requires s != []
    ensures exists i :: 0 <= i < |s| && s[i].0 == r
    ensures forall i :: 0 <= i < |s| ==> s[i].0 <= r
  {
    if |s| == 1 then s[0].0
    else
      var m := MaxTime(s[1..]);
      assert forall i :: 1 <= i < |s| ==> s[i] == s[1..][i - 1];
      if m <= s[0].0 then s[0].0 else m
  }

  /** The number of 30-minute slots from the earliest instant up to the latest. */
  function SlotCount(s: seq<Keyed>): (r: nat)
    requires s != []
    ensures MinTime(s) + 30 * (r - 1) <= MaxTime(s) < MinTime(s) + 30 * r
  {
    assert MinTime(s) <= s[0].0 <= MaxTime(s);
    (MaxTime(s) - MinTime(s)) / 30 + 1
  }

  /** Sequences holding the same instants have the same earliest and latest instant. */
  lemma SameTimesSameBounds(a: seq<Keyed>, b: seq<Keyed>)
    requires a != [] && b != []
    requires forall time :: Lookup(a, time).Some? <==> Lookup(b, time).Some?
    ensures MinTime(a) == MinTime(b) && MaxTime(a) == MaxTime(b)
  {
    var ma, mb := MinTime(a), MinTime(b);
    assert Lookup(a, ma).Some? && Lookup(b, mb).Some?;
    var xa, xb := MaxTime(a), MaxTime(b);
    assert Lookup(a, xa).Some? && Lookup(b, xb).Some?;
  }

  function Blank(width: nat): (r: seq<Cell>)
    ensures |r| == width && forall i :: 0 <= i < width ==> r[i] == Missing
  {
    seq(width, _ => Missing)
  }

  /** The row `asfreq` puts at a grid instant: the entry there, or missing cells. */
  function SlotRow(d: seq<Keyed>, time: int, width: nat): (r: seq<Cell>)
    ensures (forall i :: 0 <= i < |d| ==> |d[i].1| == width) ==> |r| == width + 1
  {
    [Stamp(time)] + match Lookup(d, time)
      case Some(cells) => cells
      case None => Blank(width)
  }

  /** The n slots from lo on, each filled from d. */
  function Grid(d: seq<Keyed>, lo: int, n: nat, width: nat): (r: seq<seq<Cell>>)
    ensures |r| == n
  {
    seq(n, k requires 0 <= k < n => SlotRow(d, lo + 30 * k, width))
  }

  lemma GridSlot(d: seq<Keyed>, lo: int, n: nat, width: nat)
    ensures forall k :: 0 <= k < n ==> Grid(d, lo, n, width)[k] == SlotRow(d, lo + 30 * k, width)
    ensures (forall i :: 0 <= i < |d| ==> |d[i].1| == width) ==>
      forall k :: 0 <= k < n ==> |Grid(d, lo, n, width)[k]| == width + 1
  {
  }

  /**
   * `drop duplicates` followed by `asfreq('30min')`: one row per 30-minute
   * slot from the earliest to the latest instant, each the first entry at
   * its instant or missing cells.
   */
  function Reindex(keyed: seq<Keyed>, width: nat): (r: seq<seq<Cell>>)
    requires forall i :: 0 <= i < |keyed| ==> |keyed[i].1| == width
    ensures keyed == [] ==> r == []
    ensures keyed != [] ==> r == Grid(keyed, MinTime(keyed), SlotCount(keyed), width)
    ensures forall k :: 0 <= k < |r| ==> |r[k]| == width + 1
  {
    if keyed == [] then []
    else
      var d := DropDuplicateTimes(keyed);
      DedupedGrid(keyed, d, width);
      Grid(d, MinTime(d), SlotCount(d), width)
  }

  /** Dropping duplicates changes neither the bounds nor any slot. */
  lemma DedupedGrid(keyed: seq<Keyed>, d: seq<Keyed>, width: nat)
    requires keyed != [] && KeepsFirst(keyed, d)
    requires forall i :: 0 <= i < |keyed| ==> |keyed[i].1| == width
    ensures d != [] && MinTime(d) == MinTime(keyed) && SlotCount(d) == SlotCount(keyed)
    ensures Grid(d, MinTime(d), SlotCount(d), width) == Grid(keyed, MinTime(keyed), SlotCount(keyed), width)
    ensures forall k :: 0 <= k < SlotCount(keyed) ==> |Grid(keyed, MinTime(keyed), SlotCount(keyed), width)[k]| == width + 1
  {
    assert Lookup(keyed, keyed[0].0).Some?;
    SameTimesSameBounds(d, keyed);
    var lo, n := MinTime(keyed), SlotCount(keyed);
    GridSlot(d, lo, n, width);
    GridSlot(keyed, lo, n, width);
  }

  /**
   * `fill_missing_gaps`: the time column moves to the front and the rows
   * are reindexed onto the 30-minute grid.  A time column that is not all
   * instants is reported as an error instead of being reindexed as pandas
   * would; the normalised tables of the pipeline never reach that branch.
   */
  function FillMissingGaps(t: Table): (r: Result<Table, string>)
    requires Rectangular(t)
    ensures TimeColumn(t.columns).None? ==> r == Ok(t)
    ensures TimeColumn(t.columns).Some? ==>
      var c := TimeColumn(t.columns).value;
      && (r.Ok? <==> StampedAt(t.rows, c))
      && (r.Ok? ==>
            && r.value.columns == [t.columns[c]] + RemoveAt(t.columns, c)
            && r.value.rows == Reindex(KeyRows(t.rows, c), |t.columns| - 1)
            && Rectangular(r.value))
  {
    match TimeColumn(t.columns)
    case None => Ok(t)
    case Some(c) =>
      if !StampedAt(t.rows, c) then Err("TypeError")
      else
        var keyed := KeyRows(t.rows, c);
        Ok(Table([t.columns[c]] + RemoveAt(t.columns, c), Reindex(keyed, |t.columns| - 1)))
  }
}
