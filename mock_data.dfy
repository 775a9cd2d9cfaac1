/**
 * The price frames the fetchers hand around, which always carry exactly
 * the `date` and `price_€/MWh` columns, and the synthetic 24-hour series
 * of src/utils/mock_data_generator.py.
 */
module Prices {

  const DateColumn: string := "date"
  const PriceColumn: string := "price_€/MWh"
  const PriceColumns: seq<string> := [DateColumn, PriceColumn]

  /** One row: an instant in minutes since the epoch (UTC) and a price. */
  datatype PriceRecord = PriceRecord(date: int, price: real)

  datatype PriceFrame = PriceFrame(columns: seq<string>, rows: seq<PriceRecord>)

  /** `pd.DataFrame(columns=["date", "price_€/MWh"])` */
  function EmptyPriceFrame(): (r: PriceFrame)
    ensures r.columns == PriceColumns && r.rows == []
  {
    PriceFrame(PriceColumns, [])
  }
}

module MockData {
  import opened Wrappers
  import opened Calendar
  import opened Prices
  import opened Reals

  /** A source of `random.random()` draws: each lies in [0, 1). */
  ghost predicate UnitDraws(random: nat -> real)
  {
    forall i: nat :: 0.0 <= random(i) < 1.0
  }

  /** `random.uniform(a, b)`, computed as `a + (b - a) * random()`. */
  function Uniform(a: real, b: real, u: real): real
  {
    a + Scale(b - a, u)
  }

  /** A uniform draw lies between the two bounds, in whichever order they come. */
  lemma UniformBetween(a: real, b: real, u: real)
    requires 0.0 <= u < 1.0
    ensures a <= b ==> a <= Uniform(a, b, u) <= b
    ensures b < a ==> b <= Uniform(a, b, u) <= a
  {
    ScaledStep(b - a, u);
  }

  /** A fraction u in [0, 1) of a width d lies between 0 and d. */
  lemma ScaledStep(d: real, u: real)
    requires 0.0 <= u < 1.0
    ensures 0.0 <= d ==> 0.0 <= Scale(d, u) <= d
    ensures d < 0.0 ==> d <= Scale(d, u) <= 0.0
  {
    var w := if 0.0 <= d then d else -d;
    MulNonNegative(w, u);
    MulNonNegative(w, 1.0 - u);
    assert w * (1.0 - u) == w - w * u;
    if d < 0.0 {
      assert d * u == -(w * u);
    }
  }

  function Min(a: real, b: real): real { if a <= b then a else b }
  function Max(a: real, b: real): real { if a <= b then b else a }

  /**
   * What the generator promises for a given day: the two columns, 24 rows,
   * row i at midnight + i hours, every price between the two bounds.
   */
  ghost predicate IsMockSeries(df: PriceFrame, date: int, lo: real, hi: real)
  {
    && df.columns == PriceColumns
    && |df.rows| == 24
    && (forall i :: 0 <= i < 24 ==> df.rows[i].date == Midnight(date) + i * MinutesPerHour)
    && (forall i :: 0 <= i < 24 ==> Min(lo, hi) <= df.rows[i].price <= Max(lo, hi))
  }

  /**
   * `generate_mock_price_data`: `date` falls back to `now` when absent; the
   * i-th price is drawn with the i-th unit draw.
   */
  method GenerateMockPriceData(date: Option<int>, now: int, lo: real, hi: real, random: nat -> real)
    returns (df: PriceFrame)
    requires UnitDraws(random)
    ensures IsMockSeries(df, if date.Some? then date.value else now, lo, hi)
    ensures forall i :: 0 <= i < |df.rows| ==> df.rows[i].price == Uniform(lo, hi, random(i))
  {
    var day := if date.Some? then date.value else now;
    var records: seq<PriceRecord> := [];
    for i := 0 to 24
      invariant |records| == i
      invariant forall k :: 0 <= k < i ==> records[k].date == Midnight(day) + k * MinutesPerHour
      invariant forall k :: 0 <= k < i ==> records[k].price == Uniform(lo, hi, random(k))
      invariant forall k :: 0 <= k < i ==> Min(lo, hi) <= records[k].price <= Max(lo, hi)
    {
      var recordDate := Midnight(day) + i * MinutesPerHour;
      assert 0.0 <= random(i) < 1.0;
      var price := Uniform(lo, hi, random(i));
      UniformBetween(lo, hi, random(i));
      records := records + [PriceRecord(recordDate, price)];
    }
    df := PriceFrame(PriceColumns, records);
  }

  /** The mock rows are one hour apart, strictly increasing, and all on the requested day. */
  lemma MockSeriesOnOneDay(df: PriceFrame, date: int, lo: real, hi: real)
    requires IsMockSeries(df, date, lo, hi)
    ensures forall i :: 0 < i < 24 ==> df.rows[i].date == df.rows[i - 1].date + MinutesPerHour
    ensures forall i :: 0 <= i < 24 ==> Midnight(df.rows[i].date) == Midnight(date)
    ensures forall i :: 0 <= i < 24 ==> HourOf(df.rows[i].date) == i
  {
    forall i | 0 <= i < 24
      ensures Midnight(df.rows[i].date) == Midnight(date)
      ensures HourOf(df.rows[i].date) == i
    {
      MidnightPlusHours(Midnight(date), i);
    }
  }
}
