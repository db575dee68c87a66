/** The per-quarter price sensors for today and tomorrow: the price of the
    record whose interval starts at a given hour and minute. */
module QuarterSensors {
  import opened Common
  import opened SharedBase

  /** A record whose dtime and price parse and whose interval starts at
      `hour`:`minute`. */
  predicate AtQuarter(r: PriceRecord, hour: int, minute: int)
  {
    r.dtime.Some? && Hour(PeriodStart(r)) == hour && Minute(PeriodStart(r)) == minute && r.rcePln.Some?
  }

  function AtQuarterOf(hour: int, minute: int): PriceRecord -> bool
  {
    (r: PriceRecord) => AtQuarter(r, hour, minute)
  }

  /** The search of both native_value properties: the price of the first
      record of the quarter, or nothing. */
  function QuarterPrice(records: seq<PriceRecord>, hour: int, minute: int): (p: Option<real>)
    ensures p.None? <==> forall i :: 0 <= i < |records| ==> !AtQuarter(records[i], hour, minute)
    ensures p.Some? ==>
      exists i :: 0 <= i < |records| && AtQuarter(records[i], hour, minute) && p == records[i].rcePln &&
        forall j :: 0 <= j < i ==> !AtQuarter(records[j], hour, minute)
  {
    match FirstIndex(records, AtQuarterOf(hour, minute))
    case None => None
    case Some(i) => records[i].rcePln
  }

  /** RCETodayQuarterPriceSensor.native_value (before rounding). */
  function TodayQuarterPrice(data: Option<Snapshot>, now: int, hour: int, minute: int): (p: Option<real>)
    ensures p == QuarterPrice(TodayData(data, now), hour, minute)
  {
    var todayData := TodayData(data, now);
    if todayData == [] then None else QuarterPrice(todayData, hour, minute)
  }

  /** RCETomorrowQuarterPriceSensor.native_value (before rounding). */
  function TomorrowQuarterPrice(data: Option<Snapshot>, now: int, hour: int, minute: int): (p: Option<real>)
    ensures p == QuarterPrice(TomorrowData(data, now), hour, minute)
    ensures Hour(now) < TOMORROW_DATA_HOUR ==> p.None?
  {
    var tomorrowData := TomorrowData(data, now);
    if tomorrowData == [] then None else QuarterPrice(tomorrowData, hour, minute)
  }

  /** Today's quarter value is the price of a record of today's business
      date in that quarter, and there is one exactly when such a record
      exists. */
  lemma TodayQuarterPriceSource(data: Option<Snapshot>, now: int, hour: int, minute: int)
    ensures var p := TodayQuarterPrice(data, now, hour, minute);
      && (p.Some? <==> exists r :: r in Records(data) && r.businessDate == Some(Day(now)) && AtQuarter(r, hour, minute))
      && (p.Some? ==> exists r :: r in Records(data) && r.businessDate == Some(Day(now)) && AtQuarter(r, hour, minute)
                        && p == r.rcePln)
  {
    var today := TodayData(data, now);
    TodayDataExact(data, now);
    var p := TodayQuarterPrice(data, now, hour, minute);
    if p.Some? {
      var i :| 0 <= i < |today| && AtQuarter(today[i], hour, minute) && p == today[i].rcePln;
      assert today[i] in today;
    }
    if exists r :: r in Records(data) && r.businessDate == Some(Day(now)) && AtQuarter(r, hour, minute) {
      var r :| r in Records(data) && r.businessDate == Some(Day(now)) && AtQuarter(r, hour, minute);
      var i :| 0 <= i < |today| && today[i] == r;
    }
  }

  /** From 14:00, tomorrow's quarter value is the price of a record of
      tomorrow's business date in that quarter, and there is one exactly
      when such a record exists. */
  lemma TomorrowQuarterPriceSource(data: Option<Snapshot>, now: int, hour: int, minute: int)
    requires Hour(now) >= TOMORROW_DATA_HOUR
    ensures var p := TomorrowQuarterPrice(data, now, hour, minute);
      && (p.Some? <==> exists r :: r in Records(data) && r.businessDate == Some(Day(now) + 1) && AtQuarter(r, hour, minute))
      && (p.Some? ==> exists r :: r in Records(data) && r.businessDate == Some(Day(now) + 1) && AtQuarter(r, hour, minute)
                        && p == r.rcePln)
  {
    var tomorrow := TomorrowData(data, now);
    TomorrowDataExact(data, now);
    var p := TomorrowQuarterPrice(data, now, hour, minute);
    if p.Some? {
      var i :| 0 <= i < |tomorrow| && AtQuarter(tomorrow[i], hour, minute) && p == tomorrow[i].rcePln;
      assert tomorrow[i] in tomorrow;
    }
    if exists r :: r in Records(data) && r.businessDate == Some(Day(now) + 1) && AtQuarter(r, hour, minute) {
      var r :| r in Records(data) && r.businessDate == Some(Day(now) + 1) && AtQuarter(r, hour, minute);
      var i :| 0 <= i < |tomorrow| && tomorrow[i] == r;
    }
  }
}
