/** What every entity shares: today's and tomorrow's slices of the
    coordinator's records, the 14:00 gate on tomorrow's prices, and the
    availability test. */
module SharedBase {
  import opened Common

  /** Tomorrow's prices are published in the afternoon: from 14:00 on. */
  const TOMORROW_DATA_HOUR: int := 14

  predicate OnBusinessDate(r: PriceRecord, day: int)
  {
    r.businessDate == Some(day)
  }

  function OnDate(day: int): PriceRecord -> bool
  {
    (r: PriceRecord) => OnBusinessDate(r, day)
  }

  /** get_today_data: the records whose business date is today. */
  function TodayData(data: Option<Snapshot>, now: int): seq<PriceRecord>
  {
    Filter(Records(data), OnDate(Day(now)))
  }

  /** is_tomorrow_data_available */
  predicate IsTomorrowDataAvailable(now: int)
  {
    Hour(now) >= TOMORROW_DATA_HOUR
  }

  /** get_tomorrow_data: nothing before 14:00, then the records whose
      business date is tomorrow. */
  function TomorrowData(data: Option<Snapshot>, now: int): seq<PriceRecord>
  {
    if !IsTomorrowDataAvailable(now) then [] else Filter(Records(data), OnDate(Day(now) + 1))
  }

  /** available: the last update succeeded and there is a "raw_data" list
      (possibly empty). */
  predicate Available(lastUpdateSuccess: bool, data: Option<Snapshot>)
  {
    lastUpdateSuccess && data.Some? && data.value.rawData.Some?
  }

  /** `available` of the tomorrow hour and quarter sensors: the base test
      and the 14:00 gate. */
  predicate TomorrowSensorAvailable(lastUpdateSuccess: bool, data: Option<Snapshot>, now: int)
  {
    Available(lastUpdateSuccess, data) && IsTomorrowDataAvailable(now)
  }

  // ---------------------------------------------------------------------
  // Properties.

  /** Today's slice is exactly today's records, in their original order. */
  lemma TodayDataExact(data: Option<Snapshot>, now: int)
    ensures forall r :: r in TodayData(data, now) <==> r in Records(data) && r.businessDate == Some(Day(now))
    ensures IsSubsequence(TodayData(data, now), Records(data))
    ensures data.None? || data.value.rawData.None? ==> TodayData(data, now) == []
  {
    FilterProperties(Records(data), OnDate(Day(now)));
  }

  /** Tomorrow's slice is empty before 14:00 and is otherwise exactly
      tomorrow's records, in their original order. */
  lemma TomorrowDataExact(data: Option<Snapshot>, now: int)
    ensures Hour(now) < TOMORROW_DATA_HOUR ==> TomorrowData(data, now) == []
    ensures Hour(now) >= TOMORROW_DATA_HOUR ==>
      forall r :: r in TomorrowData(data, now) <==> r in Records(data) && r.businessDate == Some(Day(now) + 1)
    ensures IsSubsequence(TomorrowData(data, now), Records(data))
  {
    FilterProperties(Records(data), OnDate(Day(now) + 1));
  }

  /** No record is in both slices. */
  lemma TodayTomorrowDisjoint(data: Option<Snapshot>, now: int, r: PriceRecord)
    ensures !(r in TodayData(data, now) && r in TomorrowData(data, now))
  {
    TodayDataExact(data, now);
    TomorrowDataExact(data, now);
  }

  /** A tomorrow sensor is unavailable before 14:00 and, from then on,
      exactly when the base entity is. */
  lemma TomorrowSensorAvailability(lastUpdateSuccess: bool, data: Option<Snapshot>, now: int)
    ensures Hour(now) < TOMORROW_DATA_HOUR ==> !TomorrowSensorAvailable(lastUpdateSuccess, data, now)
    ensures Hour(now) >= TOMORROW_DATA_HOUR ==>
      (TomorrowSensorAvailable(lastUpdateSuccess, data, now) <==> lastUpdateSuccess && data.Some? && data.value.rawData.Some?)
  {
  }
}
