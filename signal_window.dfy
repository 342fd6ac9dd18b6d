/**
 * The date rule of the extractor's entry point: pick a Monday near today,
 * then read the channels from the Sunday before it at 23:00 to the Tuesday
 * after it at 01:00, local time, and compare against message times in UTC.
 *
 * Dates are proleptic Gregorian ordinals as Python's `date.toordinal`
 * numbers them: day 1 is 0001-01-01, a Monday. Times are whole seconds
 * counted from the start of day 0.
 */
module SignalWindow {
  /** Local hours ahead of UTC used by the entry point. */
  const TimezoneOffset: int := 3

  const SecondsPerDay: int := 86400

  /** `date.weekday()`: Monday is 0, Sunday is 6. */
  function Weekday(day: int): (r: int)
    ensures 0 <= r < 7
    ensures r == 0 <==> (day - 1) % 7 == 0
  {
    (day + 6) % 7
  }

  /** The Monday whose night the entry point reads: today, tomorrow on a Sunday, or the last one. */
  function TargetMonday(today: int): (monday: int)
    ensures Weekday(monday) == 0
    ensures today - 5 <= monday <= today + 1
    ensures monday == today + 1 <==> Weekday(today) == 6
  {
    var w := Weekday(today);
    if w == 0 then today
    else if w == 6 then today + 1
    else today - w
  }

  /** The chosen Monday is the only Monday from five days back to tomorrow. */
  lemma TargetMondayUnique(today: int, monday: int)
    requires Weekday(monday) == 0
    requires today - 5 <= monday <= today + 1
    ensures monday == TargetMonday(today)
  {
    var t := TargetMonday(today);
    assert (monday - 1) % 7 == 0 && (t - 1) % 7 == 0;
    var q := (monday - 1) / 7;
    var p := (t - 1) / 7;
    assert monday - t == 7 * (q - p);
  }

  /** Except on a Sunday, the chosen Monday is the most recent Monday, today included. */
  lemma TargetMondayMostRecent(today: int, monday: int)
    requires Weekday(today) != 6
    requires Weekday(monday) == 0 && monday <= today
    ensures monday <= TargetMonday(today) <= today
  {
    var t := TargetMonday(today);
    if t < monday {
      TargetMondayUnique(today, monday);
    }
  }

  /** A local wall-clock time: the day's ordinal, hours and minutes. */
  function LocalTime(day: int, hour: int, minute: int): int {
    day * SecondsPerDay + hour * 3600 + minute * 60
  }

  /** Reading a local time as UTC and subtracting the offset, as the window bounds are converted. */
  function ToUtc(local: int, offsetHours: int): (utc: int)
    ensures utc + offsetHours * 3600 == local
  {
    local - offsetHours * 3600
  }

  datatype Window = Window(start: int, end: int)

  /** The window for `today`, in UTC: Sunday 23:00 to Tuesday 01:00 around the target Monday. */
  function MondayWindow(today: int, offsetHours: int): (w: Window)
    ensures w.end - w.start == 26 * 3600
  {
    var monday := TargetMonday(today);
    Window(ToUtc(LocalTime(monday - 1, 23, 0), offsetHours), ToUtc(LocalTime(monday + 1, 1, 0), offsetHours))
  }

  /** A message is inside the window unless it is before the start or after the end. */
  predicate InWindow(w: Window, date: int) {
    !(date < w.start) && !(date > w.end)
  }

  /**
   * The window holds exactly the messages posted from Sunday 23:00 to
   * Tuesday 01:00 local time, both ends included, around the target Monday.
   */
  lemma MondayWindowLocal(today: int, offsetHours: int, date: int)
    ensures var monday := TargetMonday(today);
      InWindow(MondayWindow(today, offsetHours), date) <==>
        LocalTime(monday - 1, 23, 0) <= date + offsetHours * 3600 <= LocalTime(monday + 1, 1, 0)
  {
  }

  /** Every moment of the target Monday, local time, falls inside the window. */
  lemma MondayInsideWindow(today: int, offsetHours: int, second: int)
    requires 0 <= second < SecondsPerDay
    ensures InWindow(MondayWindow(today, offsetHours), ToUtc(TargetMonday(today) * SecondsPerDay + second, offsetHours))
  {
  }

  /** The window starts on a Sunday and ends on a Tuesday, local time. */
  lemma WindowDays(today: int)
    ensures Weekday(TargetMonday(today) - 1) == 6
    ensures Weekday(TargetMonday(today) + 1) == 1
  {
  }
}
