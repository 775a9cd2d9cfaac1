/**
 * Tables as the pipeline sees them: named columns and rows of cells.  A
 * cell is missing (NaN/NaT), a number, a string, a flag, an instant in
 * minutes since the epoch (UTC) or the square root of a number.  Also the column-choice rule that
 * several modules share: the first column whose lower-cased name holds a
 * given marker.
 */
module Frames {
  import opened Wrappers
  import opened Strings

  /** Root(v) is the square root of v >= 0, the form a standard deviation takes here. */
  datatype Cell = Missing | Num(x: real) | Text(s: string) | Flag(b: bool) | Stamp(t: int) | Root(v: real)

  datatype Table = Table(columns: seq<string>, rows: seq<seq<Cell>>)

  /** A DataFrame is rectangular: every row has one cell per column. */
  ghost predicate Rectangular(t: Table)
  {
    forall i :: 0 <= i < |t.rows| ==> |t.rows[i]| == |t.columns|
  }

  /** `next((c for c in columns if p(c)), None)`, as an index. */
  function FirstWhere(columns: seq<string>, p: string -> bool): (r: Option<nat>)
    ensures r.Some? ==> r.value < |columns| && p(columns[r.value])
    ensures r.Some? ==> forall j :: 0 <= j < r.value ==> !p(columns[j])
    ensures r.None? ==> forall j :: 0 <= j < |columns| ==> !p(columns[j])
  {
    if columns == [] then None
    else if p(columns[0]) then Some(0)
    else match FirstWhere(columns[1..], p)
      case None => None
      case Some(i) => Some(i + 1)
  }

  /** `"time" in c.lower() or "date" in c.lower()` */
  predicate MarksTime(name: string)
  {
    Contains(Lower(name), "time") || Contains(Lower(name), "date")
  }

  /** The time column: the first column whose name mentions a time or a date. */
  function TimeColumn(columns: seq<string>): (r: Option<nat>)
    ensures r.Some? ==> r.value < |columns| && MarksTime(columns[r.value])
    ensures r.Some? ==> forall j :: 0 <= j < r.value ==> !MarksTime(columns[j])
    ensures r.None? ==> forall j :: 0 <= j < |columns| ==> !MarksTime(columns[j])
  {
    FirstWhere(columns, MarksTime)
  }

  /** s without its i-th element. */
  function RemoveAt<T>(s: seq<T>, i: nat): (r: seq<T>)
    requires i < |s|
    ensures |r| == |s| - 1
    ensures forall j :: 0 <= j < i ==> r[j] == s[j]
    ensures forall j :: i <= j < |r| ==> r[j] == s[j + 1]
  {
    s[..i] + s[i + 1..]
  }
}
