/**
 * The record mapping of two source adapters in
 * src/fetching/price_fetchers.py: `fetch_elexon_prices`, which walks a
 * JSON list and emits a row per item carrying both a settlement period and
 * a price, and `fetch_day_ahead_prices` (ENTSO-E), which maps XML points
 * to hours of the requested day.  Both turn a missing key or a failed
 * request into the empty two-column frame.  The library conversions
 * (`int()`, `float()`, `pd.to_datetime`) are given functions that either
 * produce a value or raise.
 */
module PriceAdapters {
  import opened Wrappers
  import opened Json
  import opened Calendar
  import opened Prices
  import opened PriceFetchers
  import ElexonClient

  /** What a conversion can raise: the Elexon adapter catches `ValueError` and lets the rest through. */
  datatype Exc = ValueError | OtherError(name: string)

  datatype Conversions = Conversions(
    toDate: Json -> Result<int, Exc>,
    toInt: Json -> Result<int, Exc>,
    toFloat: Json -> Result<real, Exc>)

  /** An item that yields a record: an object whose period and price are present and not null. */
  predicate Eligible(item: Json)
  {
    item.JObj? && Present(item.fields, "settlementPeriod") && Present(item.fields, "price")
  }

  /** `item.get("settlementDate", from_date_str)` */
  function SettlementDateOf(fields: seq<(string, Json)>, fromDate: string): Json
  {
    match Get(fields, "settlementDate")
    case Some(v) => v
    case None => JStr(fromDate)
  }

  /**
   * One iteration of the item loop: `item.get` raises `AttributeError` on
   * anything but an object; an item without period or price emits nothing;
   * otherwise `int(period)`, the date and `float(price)` are converted in
   * that order and the first failure is raised.
   */
  function ItemRecord(item: Json, fromDate: string, conv: Conversions): (r: Result<Option<PriceRecord>, Exc>)
    ensures !item.JObj? ==> r == Err(OtherError("AttributeError"))
    ensures item.JObj? && !Eligible(item) ==> r == Ok(None)
    ensures r.Ok? && r.value.Some? ==>
      && Eligible(item)
      && var period := conv.toInt(Get(item.fields, "settlementPeriod").value);
         var day := conv.toDate(SettlementDateOf(item.fields, fromDate));
         var price := conv.toFloat(Get(item.fields, "price").value);
         && period.Ok? && day.Ok? && price.Ok?
         && r.value.value == PriceRecord(day.value + (period.value - 1) * MinutesPerHour, price.value)
  {
    if !item.JObj? then Err(OtherError("AttributeError"))
    else if !Eligible(item) then Ok(None)
    else
      var f := item.fields;
      match conv.toInt(Get(f, "settlementPeriod").value)
      case Err(e) => Err(e)
      case Ok(period) =>
        match conv.toDate(SettlementDateOf(f, fromDate))
        case Err(e) => Err(e)
        case Ok(day) =>
          match conv.toFloat(Get(f, "price").value)
          case Err(e) => Err(e)
          case Ok(price) => Ok(Some(PriceRecord(day + (period - 1) * MinutesPerHour, price)))
  }

  /** The eligible items, in order. */
  function EligibleItems(items: seq<Json>): (r: seq<Json>)
    ensures forall x :: x in r ==> Eligible(x)
    ensures |r| <= |items|
  {
    if items == [] then []
    else (if Eligible(items[0]) then [items[0]] else []) + EligibleItems(items[1..])
  }

  function Emitted(o: Option<PriceRecord>): seq<PriceRecord>
  {
    if o.Some? then [o.value] else []
  }

  /** Item i raises e, and every item before it converts. */
  predicate FailsFirstAt(items: seq<Json>, fromDate: string, conv: Conversions, i: int, e: Exc)
    requires 0 <= i < |items|
  {
    && ItemRecord(items[i], fromDate, conv) == Err(e)
    && forall k :: 0 <= k < i ==> ItemRecord(items[k], fromDate, conv).Ok?
  }

  /**
   * The records the item loop collects, or the first exception it meets:
   * the loop completes exactly when no item raises, and otherwise it raises
   * what the first raising item raises.
   */
  function ElexonRecords(items: seq<Json>, fromDate: string, conv: Conversions): (r: Result<seq<PriceRecord>, Exc>)
    ensures r.Ok? <==> forall i :: 0 <= i < |items| ==> ItemRecord(items[i], fromDate, conv).Ok?
    ensures r.Err? ==> exists i :: 0 <= i < |items| && FailsFirstAt(items, fromDate, conv, i, r.error)
  {
    if items == [] then Ok([])
    else
      match ItemRecord(items[0], fromDate, conv)
      case Err(e) =>
        assert FailsFirstAt(items, fromDate, conv, 0, e);
        Err(e)
      case Ok(o) =>
        var rest := ElexonRecords(items[1..], fromDate, conv);
        assert forall i :: 0 <= i < |items[1..]| ==> items[1..][i] == items[i + 1];
        if rest.Err? then
          FailsFirstShift(items, fromDate, conv, rest.error);
          rest
        else
          assert forall i :: 1 <= i < |items| ==> items[i] == items[1..][i - 1];
          Ok(Emitted(o) + rest.value)
  }

  /** A first failure in the items after a converting head is the first failure of all the items. */
  lemma FailsFirstShift(items: seq<Json>, fromDate: string, conv: Conversions, e: Exc)
    requires items != [] && ItemRecord(items[0], fromDate, conv).Ok?
    requires exists i :: 0 <= i < |items[1..]| && FailsFirstAt(items[1..], fromDate, conv, i, e)
    ensures exists i :: 0 <= i < |items| && FailsFirstAt(items, fromDate, conv, i, e)
  {
    var tail := items[1..];
    var i :| 0 <= i < |tail| && FailsFirstAt(tail, fromDate, conv, i, e);
    assert tail[i] == items[i + 1];
    forall k | 0 <= k < i + 1 ensures ItemRecord(items[k], fromDate, conv).Ok? {
      if k > 0 {
        assert tail[k - 1] == items[k];
      }
    }
    assert FailsFirstAt(items, fromDate, conv, i + 1, e);
  }

  /**
   * When the loop completes, there is one record per eligible item, in
   * order, each built from that item.
   */
  lemma {:induction false} ElexonRecordsPerEligibleItem(items: seq<Json>, fromDate: string, conv: Conversions)
    requires ElexonRecords(items, fromDate, conv).Ok?
    ensures var recs := ElexonRecords(items, fromDate, conv).value;
      && |recs| == |EligibleItems(items)|
      && forall k :: 0 <= k < |recs| ==> ItemRecord(EligibleItems(items)[k], fromDate, conv) == Ok(Some(recs[k]))
  {
    if items != [] {
      ElexonRecordsPerEligibleItem(items[1..], fromDate, conv);
      var o := ItemRecord(items[0], fromDate, conv).value;
      var recs := ElexonRecords(items, fromDate, conv).value;
      var tail := ElexonRecords(items[1..], fromDate, conv).value;
      var rest := EligibleItems(items[1..]);
      assert recs == Emitted(o) + tail;
      if Eligible(items[0]) {
        assert o.Some?;
        assert EligibleItems(items) == [items[0]] + rest;
        assert recs == [o.value] + tail;
        RecordsCons(items[0], rest, o.value, tail, fromDate, conv);
      } else {
        assert EligibleItems(items) == rest;
        assert recs == tail;
      }
    }
  }

  /** One more eligible item and its record in front keep the two lists paired. */
  lemma RecordsCons(x: Json, e: seq<Json>, r: PriceRecord, t: seq<PriceRecord>, fromDate: string, conv: Conversions)
    requires |t| == |e| && forall k :: 0 <= k < |t| ==> ItemRecord(e[k], fromDate, conv) == Ok(Some(t[k]))
    requires ItemRecord(x, fromDate, conv) == Ok(Some(r))
    ensures forall k :: 0 <= k < |t| + 1 ==> ItemRecord(([x] + e)[k], fromDate, conv) == Ok(Some(([r] + t)[k]))
  {
    var es, rs := [x] + e, [r] + t;
    forall k | 0 <= k < |t| + 1
      ensures ItemRecord(es[k], fromDate, conv) == Ok(Some(rs[k]))
    {
      if k == 0 {
        assert es[k] == x && rs[k] == r;
      } else {
        SeqConsAt(x, e, k);
        SeqConsAt(r, t, k);
      }
    }
  }

  /** Past the head, ([x] + e) reads e one place back. */
  lemma SeqConsAt<T>(x: T, e: seq<T>, k: nat)
    requires 0 < k <= |e|
    ensures ([x] + e)[k] == e[k - 1]
  {
  }

  /** `prefix` followed by what the rest of the loop produces. */
  function After(prefix: seq<PriceRecord>, rest: Result<seq<PriceRecord>, Exc>): Result<seq<PriceRecord>, Exc>
  {
    if rest.Ok? then Ok(prefix + rest.value) else rest
  }

  /**
   * `fetch_elexon_prices`: an unset key, a failed request, a body that is
   * not JSON or not a list, and a `ValueError` during the loop all give the
   * empty frame; any other exception propagates; otherwise the frame holds
   * the collected records.
   */
  method FetchElexonPrices(apiKey: Option<string>, resp: ElexonClient.Response, fromDate: string, conv: Conversions)
    returns (o: Outcome)
    ensures !Truthy(apiKey) ==> o == Returned(EmptyPriceFrame())
    ensures Truthy(apiKey) && !(resp.Payload? && resp.body.JArr?) ==> o == Returned(EmptyPriceFrame())
    ensures Truthy(apiKey) && resp.Payload? && resp.body.JArr? ==>
      match ElexonRecords(resp.body.items, fromDate, conv)
      case Ok(recs) => o == Returned(PriceFrame(PriceColumns, recs))
      case Err(ValueError) => o == Returned(EmptyPriceFrame())
      case Err(OtherError(name)) => o == Raises(name)
  {
    if !Truthy(apiKey) {
      return Returned(EmptyPriceFrame());
    }
    if !(resp.Payload? && resp.body.JArr?) {
      return Returned(EmptyPriceFrame());
    }
    var collected := CollectRecords(resp.body.items, fromDate, conv);
    match collected {
      case Ok(recs) => o := Returned(PriceFrame(PriceColumns, recs));
      case Err(e) => o := if e.ValueError? then Returned(EmptyPriceFrame()) else Raises(e.name);
    }
  }

  /** The item loop of `fetch_elexon_prices`, appending to `records` until an item raises. */
  method CollectRecords(items: seq<Json>, fromDate: string, conv: Conversions)
    returns (r: Result<seq<PriceRecord>, Exc>)
    ensures r == ElexonRecords(items, fromDate, conv)
  {
    var records: seq<PriceRecord> := [];
    assert items[0..] == items;
    var whole := ElexonRecords(items, fromDate, conv);
    assert whole.Ok? ==> [] + whole.value == whole.value;
    for i := 0 to |items|
      invariant whole == After(records, ElexonRecords(items[i..], fromDate, conv))
    {
      LoopStep(items, i, fromDate, conv, records);
      var o := ItemRecord(items[i], fromDate, conv);
      if o.Err? {
        return Err(o.error);
      }
      records := records + Emitted(o.value);
    }
    assert items[|items|..] == [];
    assert records + [] == records;
    return Ok(records);
  }

  lemma LoopStep(items: seq<Json>, i: nat, fromDate: string, conv: Conversions, records: seq<PriceRecord>)
    requires i < |items|
    ensures var o := ItemRecord(items[i], fromDate, conv);
      After(records, ElexonRecords(items[i..], fromDate, conv))
        == if o.Err? then Err(o.error) else After(records + Emitted(o.value), ElexonRecords(items[i + 1..], fromDate, conv))
  {
    assert items[i..][1..] == items[i + 1..];
    var o := ItemRecord(items[i], fromDate, conv);
    var rest := ElexonRecords(items[i + 1..], fromDate, conv);
    if o.Ok? && rest.Ok? {
      assert records + (Emitted(o.value) + rest.value) == records + Emitted(o.value) + rest.value;
    }
  }

  /** An XML `Point` of the ENTSO-E document: its 1-based position and its price. */
  datatype Point = Point(position: int, amount: real)

  /** What the request and `pd.read_xml` produce: a failed request, a document that does not parse, or the points. */
  datatype XmlResult = XmlRequestFailed | XmlUnreadable | XmlPoints(points: seq<Point>)

  function PointRows(points: seq<Point>, midnight: int): (r: seq<PriceRecord>)
    ensures |r| == |points|
    ensures forall i :: 0 <= i < |r| ==>
      r[i] == PriceRecord(midnight + (points[i].position - 1) * MinutesPerHour, points[i].amount)
  {
    if points == [] then []
    else
      var first := PriceRecord(midnight + (points[0].position - 1) * MinutesPerHour, points[0].amount);
      [first] + PointRows(points[1..], midnight)
  }

  /** Row i is point i's price at hour (position - 1) after the given midnight. */
  predicate PointsAtHours(rows: seq<PriceRecord>, points: seq<Point>, day: int)
    requires |rows| == |points|
  {
    forall i :: 0 <= i < |points| ==>
      rows[i].date == day + (points[i].position - 1) * MinutesPerHour && rows[i].price == points[i].amount
  }

  /** A point at position 1..24 lands on the given day, at hour position - 1. */
  predicate PointsOnDay(rows: seq<PriceRecord>, points: seq<Point>, day: int)
    requires |rows| == |points|
  {
    forall i :: 0 <= i < |points| && 1 <= points[i].position <= 24 ==>
      Midnight(rows[i].date) == day && HourOf(rows[i].date) == points[i].position - 1
  }

  lemma PointRowsOnDay(points: seq<Point>, day: int)
    requires day == Midnight(day)
    ensures PointsOnDay(PointRows(points, day), points, day)
  {
    var rows := PointRows(points, day);
    forall i | 0 <= i < |points| && 1 <= points[i].position <= 24
      ensures Midnight(rows[i].date) == day && HourOf(rows[i].date) == points[i].position - 1
    {
      MidnightPlusHours(day, points[i].position - 1);
    }
  }

  /**
   * `fetch_day_ahead_prices`: never raises.  Without a key, on a failed
   * request or an unreadable document it returns the empty frame;
   * otherwise point p is the hour (position - 1) of the requested day.
   */
  function FetchDayAheadPrices(apiKey: Option<string>, date: Option<int>, now: int, resp: XmlResult): (r: Outcome)
    ensures r.Returned? && r.frame.columns == PriceColumns
    ensures !Truthy(apiKey) || !resp.XmlPoints? ==> r.frame.rows == []
    ensures Truthy(apiKey) && resp.XmlPoints? ==>
      var day := Midnight(if date.Some? then date.value else now);
      && |r.frame.rows| == |resp.points|
      && PointsAtHours(r.frame.rows, resp.points, day)
      && PointsOnDay(r.frame.rows, resp.points, day)
  {
    if !Truthy(apiKey) then Returned(EmptyPriceFrame())
    else
      var day := Midnight(if date.Some? then date.value else now);
      match resp
      case XmlPoints(points) =>
        PointRowsOnDay(points, day);
        Returned(PriceFrame(PriceColumns, PointRows(points, day)))
      case _ => Returned(EmptyPriceFrame())
  }
}
