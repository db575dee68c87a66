/** The record lookups of the sensor base class: the tomorrow record for a
    wall-clock time, the record in force now, the price some hours ahead or
    back, and the min/max part of a data summary. */
module SensorBase {
  import opened Common
  import opened SharedBase

  /** A record's interval, both ends included, holds time `t`. */
  predicate Contains(r: PriceRecord, t: int)
  {
    r.dtime.Some? && PeriodStart(r) <= t <= r.dtime.value
  }

  function ContainsAt(t: int): PriceRecord -> bool
  {
    (r: PriceRecord) => Contains(r, t)
  }

  /** A record that contains `t` and whose price parses. */
  predicate PricedAt(r: PriceRecord, t: int)
  {
    Contains(r, t) && r.rcePln.Some?
  }

  function PricedAtTime(t: int): PriceRecord -> bool
  {
    (r: PriceRecord) => PricedAt(r, t)
  }

  // ---------------------------------------------------------------------
  // get_tomorrow_price_at_time

  /** The minute floored to a quarter hour. */
  function QuarterFloor(minute: int): (q: int)
    ensures 0 <= minute < 60 ==> 0 <= q <= minute < q + 15 && q % 15 == 0
  {
    (minute / 15) * 15
  }

  function PeriodIs(clock: Clock): PriceRecord -> bool
  {
    (r: PriceRecord) => r.period == Some(clock)
  }

  /** get_tomorrow_price_at_time: the first of tomorrow's records whose
      "period" starts at the target's hour and floored minute. */
  function TomorrowPriceAtTime(data: Option<Snapshot>, now: int, target: int): (r: Option<PriceRecord>)
    ensures var tomorrow := TomorrowData(data, now);
      var clock := Clock(Hour(target), QuarterFloor(Minute(target)));
      && (r.Some? <==> exists i :: 0 <= i < |tomorrow| && tomorrow[i].period == Some(clock))
      && (r.Some? ==> exists i :: 0 <= i < |tomorrow| && tomorrow[i] == r.value && r.value.period == Some(clock)
                        && forall j :: 0 <= j < i ==> tomorrow[j].period != Some(clock))
  {
    var tomorrow := TomorrowData(data, now);
    if tomorrow == [] then None
    else
      match FirstIndex(tomorrow, PeriodIs(Clock(Hour(target), QuarterFloor(Minute(target)))))
      case None => None
      case Some(i) => Some(tomorrow[i])
  }

  // ---------------------------------------------------------------------
  // get_current_price_data and get_price_at_future_hour

  /** get_current_price_data: the first record whose interval contains now. */
  function CurrentPriceData(data: Option<Snapshot>, now: int): (r: Option<PriceRecord>)
    ensures var records := Records(data);
      && (r.Some? <==> exists i :: 0 <= i < |records| && Contains(records[i], now))
      && (r.Some? ==> exists i :: 0 <= i < |records| && records[i] == r.value && Contains(r.value, now)
                        && forall j :: 0 <= j < i ==> !Contains(records[j], now))
  {
    var records := Records(data);
    if records == [] then None
    else
      match FirstIndex(records, ContainsAt(now))
      case None => None
      case Some(i) => Some(records[i])
  }

  /** At a boundary two consecutive intervals both contain the time (the
      bounds are inclusive), and the earlier record wins. */
  lemma BoundaryEarlierRecordWins(data: Option<Snapshot>, now: int)
    requires var records := Records(data);
      |records| >= 2 && records[0].dtime == Some(now) && records[1].dtime == Some(now + QUARTER)
    ensures CurrentPriceData(data, now) == Some(Records(data)[0])
  {
    var records := Records(data);
    assert Contains(records[1], now);
  }

  /** get_price_at_future_hour: the price of the first record that contains
      the time `hoursAhead` hours from now and whose price parses. */
  function PriceAtFutureHour(data: Option<Snapshot>, now: int, hoursAhead: int): (p: Option<real>)
    ensures var records := Records(data);
      var target := now + hoursAhead * SECONDS_PER_HOUR;
      && (p.Some? <==> exists i :: 0 <= i < |records| && PricedAt(records[i], target))
      && (p.Some? ==> exists i :: 0 <= i < |records| && PricedAt(records[i], target) && p == records[i].rcePln
                        && forall j :: 0 <= j < i ==> !PricedAt(records[j], target))
  {
    var records := Records(data);
    if records == [] then None
    else
      match FirstIndex(records, PricedAtTime(now + hoursAhead * SECONDS_PER_HOUR))
      case None => None
      case Some(i) => records[i].rcePln
  }

  // ---------------------------------------------------------------------
  // get_price_at_past_hour

  /** A record that ended before `t` without containing it: a candidate for
      the closest past price. */
  predicate EndedBefore(r: PriceRecord, t: int)
  {
    r.dtime.Some? && !Contains(r, t) && r.dtime.value <= t
  }

  /** How long before `t` a record ended. */
  function Gap(r: PriceRecord, t: int): int
    requires r.dtime.Some?
  {
    t - r.dtime.value
  }

  /** Index of the candidate with the smallest gap; a later candidate
      replaces the current one only when strictly closer. */
  function Closest(records: seq<PriceRecord>, t: int): (c: Option<nat>)
    ensures c.Some? ==> c.value < |records| && EndedBefore(records[c.value], t)
  {
    if records == [] then None
    else
      var c := Closest(records[..|records| - 1], t);
      var last := records[|records| - 1];
      if EndedBefore(last, t) && (c.None? || Gap(last, t) < Gap(records[c.value], t))
      then Some(|records| - 1)
      else c
  }

  /** Why the price lookup raised: the closest record's price does not parse. */
  datatype LookupError = UnparseablePrice

  /** Reference definition of get_price_at_past_hour. */
  function PastHourPrice(records: seq<PriceRecord>, t: int): Result<Option<real>, LookupError>
  {
    match FirstIndex(records, PricedAtTime(t))
    case Some(i) => Success(records[i].rcePln)
    case None =>
      match Closest(records, t)
      case None => Success(None)
      case Some(c) => if records[c].rcePln.Some? then Success(records[c].rcePln) else Failure(UnparseablePrice)
  }

  /** The record chosen as closest ended before `t`, no candidate ended
      closer to `t`, and every earlier candidate ended strictly further
      away (the first one wins a tie). */
  lemma {:induction false} ClosestIsNearest(records: seq<PriceRecord>, t: int)
    ensures var c := Closest(records, t);
      && (c.None? <==> forall i :: 0 <= i < |records| ==> !EndedBefore(records[i], t))
      && (c.Some? ==> forall i :: 0 <= i < |records| && EndedBefore(records[i], t) ==>
            Gap(records[c.value], t) <= Gap(records[i], t)
            && (i < c.value ==> Gap(records[c.value], t) < Gap(records[i], t)))
  {
    if records != [] {
      var init := records[..|records| - 1];
      ClosestIsNearest(init, t);
      forall i | 0 <= i < |init|
        ensures init[i] == records[i]
      {
      }
    }
  }

  /** The loop's closest record and its gap are those of candidate `c`. */
  ghost predicate Tracks(records: seq<PriceRecord>, c: Option<nat>, t: int,
                         closestRecord: Option<PriceRecord>, closestDiff: Option<int>)
  {
    && (closestRecord.None? <==> c.None?)
    && (closestDiff.None? <==> c.None?)
    && (c.Some? ==> c.value < |records| && records[c.value].dtime.Some?
                    && closestRecord == Some(records[c.value]) && closestDiff == Some(Gap(records[c.value], t)))
  }

  /** One more record of a prefix: it becomes the closest when it ended
      before `t` strictly closer than the current one. */
  lemma ClosestStep(records: seq<PriceRecord>, i: nat, t: int)
    requires i < |records|
    ensures var c := Closest(records[..i], t);
      Closest(records[..i + 1], t) ==
        if EndedBefore(records[i], t) && (c.None? || Gap(records[i], t) < Gap(records[c.value], t))
        then Some(i) else c
  {
    assert records[..i + 1][..i] == records[..i];
  }

  /** The loop step keeps the closest record and its gap in step with
      `Closest`. */
  lemma TrackStep(records: seq<PriceRecord>, i: nat, t: int,
                  closestRecord: Option<PriceRecord>, closestDiff: Option<int>)
    requires i < |records| && Tracks(records, Closest(records[..i], t), t, closestRecord, closestDiff)
    ensures var closer := EndedBefore(records[i], t) && (closestDiff.None? || Gap(records[i], t) < closestDiff.value);
      Tracks(records, Closest(records[..i + 1], t), t,
             if closer then Some(records[i]) else closestRecord,
             if closer then Some(Gap(records[i], t)) else closestDiff)
  {
    ClosestStep(records, i, t);
  }

  /** get_price_at_past_hour: the price of the first record containing the
      time `hoursBack` hours ago; failing that, the price of the record that
      ended closest before it; raising when that price does not parse. */
  method PriceAtPastHour(data: Option<Snapshot>, now: int, hoursBack: int) returns (r: Result<Option<real>, LookupError>)
    ensures r == PastHourPrice(Records(data), now - hoursBack * SECONDS_PER_HOUR)
  {
    var records := Records(data);
    var target := now - hoursBack * SECONDS_PER_HOUR;
    if records == [] {
      return Success(None);
    }
    var closestRecord: Option<PriceRecord> := None;
    var closestDiff: Option<int> := None;
    for i := 0 to |records|
      invariant forall j :: 0 <= j < i ==> !PricedAt(records[j], target)
      invariant Tracks(records, Closest(records[..i], target), target, closestRecord, closestDiff)
    {
      var record := records[i];
      TrackStep(records, i, target, closestRecord, closestDiff);
      if record.dtime.Some? {
        var periodEnd := record.dtime.value;
        var periodStart := periodEnd - QUARTER;
        if periodStart <= target <= periodEnd {
          if record.rcePln.Some? {
            return Success(record.rcePln);
          }
        } else if periodEnd <= target {
          var diff := target - periodEnd;
          if closestDiff.None? || diff < closestDiff.value {
            closestDiff := Some(diff);
            closestRecord := Some(record);
          }
        }
      }
    }
    assert records[..|records|] == records;
    if closestRecord.None? {
      return Success(None);
    }
    if closestRecord.value.rcePln.None? {
      return Failure(UnparseablePrice);
    }
    return Success(closestRecord.value.rcePln);
  }

  // ---------------------------------------------------------------------
  // get_data_summary

  datatype Summary = Summary(count: nat, min: real, max: real, range: real)

  /** What get_data_summary yields: an empty dict for no data, the summary,
      or the error min() raises on an empty price list. */
  datatype SummaryOutcome = NoData | Summarised(summary: Summary) | EmptyPrices

  /** get_data_summary, given the prices extracted from the records. */
  function DataSummary(records: seq<PriceRecord>, prices: seq<real>): (r: SummaryOutcome)
    ensures r.NoData? <==> records == []
    ensures r.EmptyPrices? <==> records != [] && prices == []
    ensures r.Summarised? ==>
      && r.summary.count == |prices|
      && (forall i :: 0 <= i < |prices| ==> r.summary.min <= prices[i] <= r.summary.max)
      && r.summary.min in prices && r.summary.max in prices
      && r.summary.range == r.summary.max - r.summary.min >= 0.0
  {
    if records == [] then NoData
    else if prices == [] then EmptyPrices
    else Summarised(Summary(|prices|, MinOf(prices), MaxOf(prices), MaxOf(prices) - MinOf(prices)))
  }
}
