/** The per-hour price sensors for today and tomorrow: the mean price of
    the quarter-hour records whose interval starts in a given hour. */
module HourlySensors {
  import opened Common
  import opened SharedBase

  /** A record whose dtime and price parse and whose interval starts in
      `hour`. */
  predicate InHour(r: PriceRecord, hour: int)
  {
    r.dtime.Some? && Hour(PeriodStart(r)) == hour && r.rcePln.Some?
  }

  function InHourOf(hour: int): PriceRecord -> bool
  {
    (r: PriceRecord) => InHour(r, hour)
  }

  /** The prices collected for `hour`, in record order. */
  function HourPrices(records: seq<PriceRecord>, hour: int): seq<real>
  {
    if records == [] then []
    else
      var last := records[|records| - 1];
      HourPrices(records[..|records| - 1], hour) + (if InHour(last, hour) then [last.rcePln.value] else [])
  }

  /** The loop of both native_value properties: the mean of the prices of
      the records in `hour`, or nothing when there are none. */
  method AveragePriceInHour(records: seq<PriceRecord>, hour: int) returns (r: Option<real>)
    ensures r.None? <==> HourPrices(records, hour) == []
    ensures r.Some? ==> r.value == Mean(HourPrices(records, hour))
  {
    var prices: seq<real> := [];
    for i := 0 to |records|
      invariant prices == HourPrices(records[..i], hour)
    {
      assert records[..i + 1][..i] == records[..i];
      var record := records[i];
      if record.dtime.Some? {
        var periodStart := record.dtime.value - QUARTER;
        if Hour(periodStart) == hour && record.rcePln.Some? {
          prices := prices + [record.rcePln.value];
        }
      }
    }
    assert records[..|records|] == records;
    if prices == [] {
      return None;
    }
    return Some(Sum(prices) / (|prices| as real));
  }

  /** The prices collected are exactly those of the records in the hour. */
  lemma {:induction false} HourPricesExact(records: seq<PriceRecord>, hour: int)
    ensures |HourPrices(records, hour)| <= |records|
    ensures forall p :: p in HourPrices(records, hour) <==>
      exists i :: 0 <= i < |records| && InHour(records[i], hour) && records[i].rcePln == Some(p)
  {
    if records != [] {
      var init := records[..|records| - 1];
      HourPricesExact(init, hour);
      forall p
        ensures p in HourPrices(records, hour) <==>
          exists i :: 0 <= i < |records| && InHour(records[i], hour) && records[i].rcePln == Some(p)
      {
        if p in HourPrices(init, hour) {
          var i :| 0 <= i < |init| && InHour(init[i], hour) && init[i].rcePln == Some(p);
          assert records[i] == init[i];
        }
        if exists i :: 0 <= i < |records| && InHour(records[i], hour) && records[i].rcePln == Some(p) {
          var i :| 0 <= i < |records| && InHour(records[i], hour) && records[i].rcePln == Some(p);
          if i < |init| {
            assert init[i] == records[i];
          }
        }
      }
    }
  }

  /** The prices collected are the records of the hour, in record order and
      with repetitions, each replaced by its price: the mean weighs a price
      once per record that carries it. */
  lemma {:induction false} HourPricesInOrder(records: seq<PriceRecord>, hour: int)
    ensures var hits := Filter(records, InHourOf(hour));
      |HourPrices(records, hour)| == |hits|
      && forall i :: 0 <= i < |hits| ==> hits[i].rcePln == Some(HourPrices(records, hour)[i])
  {
    if records != [] {
      HourPricesInOrder(records[..|records| - 1], hour);
    }
  }

  /** The average lies between the smallest and the largest price averaged. */
  lemma HourAverageBetween(records: seq<PriceRecord>, hour: int)
    requires HourPrices(records, hour) != []
    ensures var prices := HourPrices(records, hour);
      MinOf(prices) <= Mean(prices) <= MaxOf(prices)
  {
    MeanWithinBounds(HourPrices(records, hour));
  }

  /** RCETodayHourPriceSensor.native_value (before rounding). */
  method TodayHourPrice(data: Option<Snapshot>, now: int, hour: int) returns (r: Option<real>)
    ensures r.None? <==> HourPrices(TodayData(data, now), hour) == []
    ensures r.Some? ==> r.value == Mean(HourPrices(TodayData(data, now), hour))
  {
    var todayData := TodayData(data, now);
    if todayData == [] {
      return None;
    }
    r := AveragePriceInHour(todayData, hour);
  }

  /** RCETomorrowHourPriceSensor.native_value (before rounding). */
  method TomorrowHourPrice(data: Option<Snapshot>, now: int, hour: int) returns (r: Option<real>)
    ensures r.None? <==> HourPrices(TomorrowData(data, now), hour) == []
    ensures r.Some? ==> r.value == Mean(HourPrices(TomorrowData(data, now), hour))
  {
    var tomorrowData := TomorrowData(data, now);
    if tomorrowData == [] {
      return None;
    }
    r := AveragePriceInHour(tomorrowData, hour);
  }

  /** Today's hour value averages exactly today's priced records of that
      hour, and is none when there are none. */
  lemma TodayHourPriceSources(data: Option<Snapshot>, now: int, hour: int, p: real)
    ensures p in HourPrices(TodayData(data, now), hour) <==>
      exists r :: r in Records(data) && r.businessDate == Some(Day(now)) && InHour(r, hour) && r.rcePln == Some(p)
  {
    var today := TodayData(data, now);
    TodayDataExact(data, now);
    HourPricesExact(today, hour);
    if p in HourPrices(today, hour) {
      var i :| 0 <= i < |today| && InHour(today[i], hour) && today[i].rcePln == Some(p);
      assert today[i] in today;
    }
    if exists r :: r in Records(data) && r.businessDate == Some(Day(now)) && InHour(r, hour) && r.rcePln == Some(p) {
      var r :| r in Records(data) && r.businessDate == Some(Day(now)) && InHour(r, hour) && r.rcePln == Some(p);
      var i :| 0 <= i < |today| && today[i] == r;
    }
  }

  /** Before 14:00 tomorrow's hour value is always none. */
  lemma TomorrowHourPriceBeforeTwo(data: Option<Snapshot>, now: int, hour: int)
    requires Hour(now) < TOMORROW_DATA_HOUR
    ensures HourPrices(TomorrowData(data, now), hour) == []
  {
  }

  /** From 14:00 tomorrow's hour value averages exactly tomorrow's priced
      records of that hour. */
  lemma TomorrowHourPriceSources(data: Option<Snapshot>, now: int, hour: int, p: real)
    requires Hour(now) >= TOMORROW_DATA_HOUR
    ensures p in HourPrices(TomorrowData(data, now), hour) <==>
      exists r :: r in Records(data) && r.businessDate == Some(Day(now) + 1) && InHour(r, hour) && r.rcePln == Some(p)
  {
    var tomorrow := TomorrowData(data, now);
    TomorrowDataExact(data, now);
    HourPricesExact(tomorrow, hour);
    if p in HourPrices(tomorrow, hour) {
      var i :| 0 <= i < |tomorrow| && InHour(tomorrow[i], hour) && tomorrow[i].rcePln == Some(p);
      assert tomorrow[i] in tomorrow;
    }
    if exists r :: r in Records(data) && r.businessDate == Some(Day(now) + 1) && InHour(r, hour) && r.rcePln == Some(p) {
      var r :| r in Records(data) && r.businessDate == Some(Day(now) + 1) && InHour(r, hour) && r.rcePln == Some(p);
      var i :| 0 <= i < |tomorrow| && tomorrow[i] == r;
    }
  }
}
