/** The binary sensors' time-window test: is the current time between two
    "HH:MM" wall-clock times on a given date. */
module BinarySensorBase {
  import opened Common

  /** An "HH:MM" text and what strptime makes of it (`None` when it does not
      parse, as for "24:00"). */
  datatype TimeText = TimeText(text: string, clock: Option<Clock>)

  /** The date argument: omitted (today) or a "YYYY-MM-DD" text, given as the
      day it parses to. */
  datatype DateArg = Today | Given(day: Option<int>)

  /** What strptime accepts for "%H:%M". */
  predicate ValidClock(c: Clock)
  {
    0 <= c.hour < 24 && 0 <= c.minute < 60
  }

  /** Seconds from midnight to a wall-clock time. */
  function ClockSeconds(c: Clock): int
  {
    c.hour * SECONDS_PER_HOUR + c.minute * 60
  }

  /** is_current_time_in_window: both texts non-empty and parseable, the
      date parseable, and start <= now <= end on that date, bounds included. */
  function IsCurrentTimeInWindow(start: TimeText, end: TimeText, date: DateArg, now: int): (r: bool)
    ensures start.text == [] || end.text == [] ==> !r
    ensures start.clock.None? || end.clock.None? || date == Given(None) ==> !r
  {
    if start.text == [] || end.text == [] then false
    else
      var day := if date.Today? then Some(Day(now)) else date.day;
      match (day, start.clock, end.clock)
      case (Some(d), Some(s), Some(e)) => DayStart(d) + ClockSeconds(s) <= now <= DayStart(d) + ClockSeconds(e)
      case _ => false
  }

  /** Without a date the window is taken on today's date. */
  lemma DefaultDateIsToday(start: TimeText, end: TimeText, now: int)
    ensures IsCurrentTimeInWindow(start, end, Today, now) == IsCurrentTimeInWindow(start, end, Given(Some(Day(now))), now)
  {
  }

  /** On today's date the test compares the time of day with the two
      wall-clock times, both bounds included. */
  lemma TodayWindowByTimeOfDay(start: TimeText, end: TimeText, now: int)
    requires start.text != [] && end.text != []
    requires start.clock.Some? && end.clock.Some?
    ensures IsCurrentTimeInWindow(start, end, Today, now) <==>
      ClockSeconds(start.clock.value) <= now % SECONDS_PER_DAY <= ClockSeconds(end.clock.value)
  {
    assert now == DayStart(Day(now)) + now % SECONDS_PER_DAY;
  }

  /** A window that ends before it starts (one across midnight) never holds. */
  lemma OvernightWindowNeverHolds(start: TimeText, end: TimeText, date: DateArg, now: int)
    requires start.clock.Some? && end.clock.Some?
    requires ClockSeconds(end.clock.value) < ClockSeconds(start.clock.value)
    ensures !IsCurrentTimeInWindow(start, end, date, now)
  {
  }

  /** A window on another day never holds now. */
  lemma OtherDayNeverHolds(start: TimeText, end: TimeText, day: int, now: int)
    requires start.clock.Some? && end.clock.Some?
    requires ValidClock(start.clock.value) && ValidClock(end.clock.value)
    requires day != Day(now)
    ensures !IsCurrentTimeInWindow(start, end, Given(Some(day)), now)
  {
  }
}
