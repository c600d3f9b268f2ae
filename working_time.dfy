/**
 * Times of day and the "working time" arithmetic shared by the staff clock card, the
 * personal time clock and the attendance table: an elapsed number of milliseconds split
 * into whole hours and minutes with JavaScript's `Math.floor` and `%`.
 */
module WorkingTime {
  import opened Wrappers

  const MS_PER_MINUTE := 60000
  const MS_PER_HOUR := 3600000
  const MINUTES_PER_DAY := 1440

  /** A wall-clock time of day, as minutes since local midnight (the `HH:MM` strings). */
  type TimeOfDay = m: int | 0 <= m < MINUTES_PER_DAY

  /** `HH:MM`, both fields zero-padded to two digits (24-hour clock). */
  function FormatHHMM(t: TimeOfDay): (s: string)
    ensures |s| == 5 && s[2] == ':'
  {
    [Digit(t / 60 / 10), Digit(t / 60 % 10), ':', Digit(t % 60 / 10), Digit(t % 60 % 10)]
  }

  function Digit(d: int): (c: char)
    requires 0 <= d < 10
    ensures '0' <= c <= '9'
  {
    ('0' as int + d) as char
  }

  function DigitValue(c: char): int {
    c as int - '0' as int
  }

  predicate IsDigit(c: char) {
    '0' <= c <= '9'
  }

  /** Reads back an `HH:MM` string; anything else is not a time of day. */
  function ParseHHMM(s: string): (r: Option<TimeOfDay>)
    ensures r.Some? ==> |s| == 5 && s[2] == ':'
  {
    if |s| == 5 && IsDigit(s[0]) && IsDigit(s[1]) && s[2] == ':' && IsDigit(s[3]) && IsDigit(s[4])
       && DigitValue(s[0]) * 10 + DigitValue(s[1]) < 24 && DigitValue(s[3]) * 10 + DigitValue(s[4]) < 60
    then Some((DigitValue(s[0]) * 10 + DigitValue(s[1])) * 60 + DigitValue(s[3]) * 10 + DigitValue(s[4]))
    else None
  }

  /** Formatting a time and reading it back gives the same time: the stored `HH:MM` loses nothing. */
  lemma FormatParseRoundTrip(t: TimeOfDay)
    ensures ParseHHMM(FormatHHMM(t)) == Some(t)
  {
    var s := FormatHHMM(t);
    assert DigitValue(s[0]) * 10 + DigitValue(s[1]) == t / 60;
    assert DigitValue(s[3]) * 10 + DigitValue(s[4]) == t % 60;
  }

  /** JavaScript's `a % b` for a positive `b`: the remainder takes the sign of `a`. */
  function JsRem(a: int, b: int): (r: int)
    requires b > 0
    ensures -b < r < b
    ensures a >= 0 ==> 0 <= r && r == a % b
    ensures a < 0 ==> r <= 0
    ensures a == b * (if a >= 0 then a / b else -((-a) / b)) + r
  {
    if a >= 0 then a % b else -((-a) % b)
  }

  /** The `${hours}h ${minutes}m` text, as its two numbers. */
  datatype Elapsed = Elapsed(hours: int, minutes: int)

  /** `Math.floor(diff / 3600000)` hours and `Math.floor((diff % 3600000) / 60000)` minutes. */
  function Split(diff: int): Elapsed {
    Elapsed(diff / MS_PER_HOUR, JsRem(diff, MS_PER_HOUR) / MS_PER_MINUTE)
  }

  /** The working time shown when the clock-in time was `timeIn` and it is now `nowMs` ms after midnight. */
  function Since(timeIn: TimeOfDay, nowMs: int): Elapsed {
    Split(nowMs - timeIn * MS_PER_MINUTE)
  }

  /**
   * For a non-negative elapsed time the split is an ordinary hours-and-minutes reading of the
   * whole minutes elapsed: minutes stay below 60 and nothing is lost.
   */
  lemma SplitNonNegative(diff: int)
    requires diff >= 0
    ensures 0 <= Split(diff).minutes < 60 && Split(diff).hours >= 0
    ensures Split(diff).hours * 60 + Split(diff).minutes == diff / MS_PER_MINUTE
  {
    var h := diff / MS_PER_HOUR;
    var r := diff % MS_PER_HOUR;
    var m := r / MS_PER_MINUTE;
    assert diff == h * MS_PER_HOUR + r;
    assert r == m * MS_PER_MINUTE + r % MS_PER_MINUTE;
    assert diff == (h * 60 + m) * MS_PER_MINUTE + r % MS_PER_MINUTE;
  }

  /**
   * A clock-in time later than now (a negative difference) does not read as a negative
   * duration in the usual sense: one minute early shows as -1 hours and -1 minutes.
   */
  lemma OneMinuteEarly()
    ensures Split(-MS_PER_MINUTE) == Elapsed(-1, -1)
  {
  }

  /** Clocking in at 08:00 and looking at 17:30 shows 9 hours 30 minutes. */
  lemma NineAndAHalfHours()
    ensures Since(480, 1050 * MS_PER_MINUTE) == Elapsed(9, 30)
  {
  }
}
