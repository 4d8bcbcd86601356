/** Local wall-clock arithmetic of the bot.

    An instant is an integer number of microseconds on the bot's local clock
    (Europe/Moscow, a fixed +03:00 offset), counted from local midnight of
    1970-01-01.  Python's aware datetimes compare as instants, and with a fixed
    offset that order is the order of these integers; `now.replace(hour=h,
    minute=m, second=0, microsecond=0)` is `At(now, h, m)`.  Microseconds are
    the resolution of Python's datetime and timedelta. */
module Clock {
  import opened Wrappers

  const SECOND: int := 1_000_000
  const MINUTE: int := 60_000_000
  const HOUR: int := 3_600_000_000
  const DAY: int := 86_400_000_000

  /** Opening and closing hours of the queue window. */
  const WINDOW_OPEN_HOUR: int := 10
  const WINDOW_CLOSE_HOUR: int := 23

  /** Local midnight of the day that contains `t`. */
  function DayStart(t: int): (d: int)
    ensures d <= t < d + DAY
    ensures d % DAY == 0
  {
    t - t % DAY
  }

  /** Microseconds elapsed since local midnight. */
  function TimeOfDay(t: int): (r: int)
    ensures 0 <= r < DAY
    ensures DayStart(t) + r == t
  {
    t % DAY
  }

  /** `t.replace(hour=hour, minute=minute, second=0, microsecond=0)`. */
  function At(t: int, hour: int, minute: int): int
  {
    DayStart(t) + hour * HOUR + minute * MINUTE
  }

  /** A midnight plus an offset inside the day lies on that day. */
  lemma {:induction false} DayStartOf(d: int, off: int)
    requires d % DAY == 0
    requires 0 <= off < DAY
    ensures DayStart(d + off) == d
    ensures TimeOfDay(d + off) == off
  {
  }

  function Max(a: int, b: int): int { if a >= b then a else b }

  /** The start of today's queue window: the latest of four lower bounds --
      the current instant, 10:00 today, one hour after start-up, and one hour
      after the last successful publication (the current instant when there
      is none). */
  function EffectiveStart(now: int, startup: int, lastPost: Option<int>): int
  {
    var afterLast := match lastPost
      case Some(t) => t + HOUR
      case None => now;
    Max(Max(Max(now, At(now, WINDOW_OPEN_HOUR, 0)), startup + HOUR), afterLast)
  }

  /** 23:00 of the current local day. */
  function WindowEnd(now: int): int
  {
    At(now, WINDOW_CLOSE_HOUR, 0)
  }

  /** The effective start respects every cooldown and is one of the four bounds. */
  lemma EffectiveStartIsMaximum(now: int, startup: int, lastPost: Option<int>)
    ensures var s := EffectiveStart(now, startup, lastPost);
      && s >= now
      && s >= DayStart(now) + WINDOW_OPEN_HOUR * HOUR
      && s >= startup + HOUR
      && (lastPost.Some? ==> s >= lastPost.value + HOUR)
      && (s == now || s == DayStart(now) + WINDOW_OPEN_HOUR * HOUR || s == startup + HOUR
          || (lastPost.Some? && s == lastPost.value + HOUR))
  {
  }

  /** Floor division and remainder as Dafny defines them for a positive divisor. */
  lemma FloorDivision(a: int, b: int)
    requires b > 0
    ensures (a / b) * b == a - a % b
    ensures 0 <= a % b < b
    ensures a >= 0 ==> a / b >= 0
  {
  }

  /** Python's `timedelta / int`: the quotient rounded to the nearest
      microsecond, ties to the even neighbour. */
  function DivRoundHalfEven(a: int, b: int): (q: int)
    requires b > 0
    ensures 2 * a - b <= 2 * (q * b) <= 2 * a + b
    ensures 2 * (q * b) == 2 * a - b ==> q % 2 == 0
    ensures 2 * (q * b) == 2 * a + b ==> q % 2 == 0
    ensures a >= 0 ==> q >= 0
  {
    FloorDivision(a, b);
    var f := a / b;
    var r := a % b;
    if 2 * r > b || (2 * r == b && f % 2 == 1) then
      RoundUp(f, b, a - r);
      f + 1
    else
      f
  }

  lemma RoundUp(f: int, b: int, fb: int)
    requires f * b == fb
    ensures (f + 1) * b == fb + b
  {
  }

  /** The spacing between queue slots for a window of `duration` split into
      `parts` equal intervals. */
  function Interval(duration: int, parts: int): int
    requires parts > 0
  {
    DivRoundHalfEven(duration, parts)
  }

  /** The announcer's next run (main.py:408-412): the drawn hour and minute
      on the day after `now`. */
  function NextAnnouncement(now: int, hour: int, minute: int): int
  {
    DayStart(now) + DAY + hour * HOUR + minute * MINUTE
  }

  /** The announcer's first run (main.py:700-704): the drawn time today if it
      is still ahead, otherwise the same time tomorrow. */
  function FirstAnnouncement(now: int, hour: int, minute: int): int
  {
    var today := At(now, hour, minute);
    if today > now then today else today + DAY
  }

  predicate IsDrawnTime(hour: int, minute: int)
  {
    10 <= hour <= 22 && 0 <= minute <= 59
  }

  /** The next run falls on tomorrow's date at exactly the drawn hour and
      minute, so it is always in the future. */
  lemma NextAnnouncementIsTomorrow(now: int, hour: int, minute: int)
    requires IsDrawnTime(hour, minute)
    ensures var r := NextAnnouncement(now, hour, minute);
      && DayStart(r) == DayStart(now) + DAY
      && TimeOfDay(r) == hour * HOUR + minute * MINUTE
      && DayStart(now) + DAY + WINDOW_OPEN_HOUR * HOUR <= r < DayStart(now) + DAY + WINDOW_CLOSE_HOUR * HOUR
      && r > now
  {
    var d := DayStart(now) + DAY;
    assert d % DAY == 0;
    DayStartOf(d, hour * HOUR + minute * MINUTE);
  }

  /** The first run is strictly in the future, at most a day ahead, on today's
      or tomorrow's date, at the drawn hour and minute. */
  lemma FirstAnnouncementIsAhead(now: int, hour: int, minute: int)
    requires IsDrawnTime(hour, minute)
    ensures var r := FirstAnnouncement(now, hour, minute);
      && now < r <= now + DAY
      && (DayStart(r) == DayStart(now) || DayStart(r) == DayStart(now) + DAY)
      && TimeOfDay(r) == hour * HOUR + minute * MINUTE
      && (r == At(now, hour, minute) <==> At(now, hour, minute) > now)
  {
    var off := hour * HOUR + minute * MINUTE;
    if At(now, hour, minute) > now {
      DayStartOf(DayStart(now), off);
    } else {
      DayStartOf(DayStart(now) + DAY, off);
    }
  }
}
