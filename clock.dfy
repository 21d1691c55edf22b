/**
 * Time as the core uses it. An instant is an integer number of milliseconds in the local
 * time zone, which is taken to have a fixed offset (no daylight-saving shifts); a calendar
 * day is the number of whole days since the epoch.
 */
module Clock {
  import opened Wrappers
  import Text

  const MinuteMs: int := 60000
  const HourMs: int := 3600000
  const DayMs: int := 86400000

  /** The calendar day of an instant (what `isToday` and `format(d, 'yyyy-MM-dd')` compare). */
  function DayOf(t: int): int {
    t / DayMs
  }

  /** Local midnight of the day of `t`. */
  function StartOfDay(t: int): (r: int)
    ensures r <= t < r + DayMs
    ensures DayOf(r) == DayOf(t)
    ensures r % DayMs == 0
  {
    DayOf(t) * DayMs
  }

  /** `addDays(t, n)` and `setDate(getDate() + n)`: the same time of day, `n` days later. */
  function AddDays(t: int, n: int): int {
    t + n * DayMs
  }

  /** Moving `n` whole days moves the calendar day by `n`. */
  lemma {:induction false} DayOfAddDays(t: int, n: int)
    ensures DayOf(AddDays(t, n)) == DayOf(t) + n
  {
    var q, r := t / DayMs, t % DayMs;
    assert t == q * DayMs + r && 0 <= r < DayMs;
    assert AddDays(t, n) == (q + n) * DayMs + r;
  }

  /** Hours and minutes of a daily deadline. */
  datatype TimeOfDay = TimeOfDay(hours: nat, minutes: nat)

  /** A deadline that names a real clock time (at most 23:59). */
  predicate IsClockTime(t: TimeOfDay) {
    t.hours < 24 && t.minutes < 60
  }

  /** Milliseconds from midnight to the deadline. */
  function OffsetMs(t: TimeOfDay): (ms: int)
    ensures ms >= 0
    ensures IsClockTime(t) ==> ms < DayMs
  {
    t.hours * HourMs + t.minutes * MinuteMs
  }

  /**
   * `const [hours, minutes] = deadlineTime.split(':').map(Number)`. None when either of the
   * first two fields is NaN or there is no second field; fields after the second are ignored.
   */
  function ParseDeadlineTime(s: string): (r: Option<TimeOfDay>)
    ensures r.Some? ==> |Text.Split(s, ':')| >= 2
    ensures var parts := Text.Split(s, ':');
      r.Some? <==> |parts| >= 2 && Text.ParseDecimal(parts[0]).Some? && Text.ParseDecimal(parts[1]).Some?
  {
    var parts := Text.Split(s, ':');
    if |parts| < 2 then None
    else
      match (Text.ParseDecimal(parts[0]), Text.ParseDecimal(parts[1]))
      case (Some(h), Some(m)) => Some(TimeOfDay(h, m))
      case _ => None
  }

  /** The decimal text "H:M" of a time of day. */
  function FormatTimeOfDay(t: TimeOfDay): string {
    Text.NatToDecimal(t.hours) + ":" + Text.NatToDecimal(t.minutes)
  }

  /** Parsing a formatted time of day gives it back. */
  lemma {:induction false} ParseFormatTimeOfDay(t: TimeOfDay)
    ensures ParseDeadlineTime(FormatTimeOfDay(t)) == Some(t)
  {
    var h, m := Text.NatToDecimal(t.hours), Text.NatToDecimal(t.minutes);
    assert ':' !in h by { assert forall i :: 0 <= i < |h| ==> Text.IsDigit(h[i]); }
    assert ':' !in m by { assert forall i :: 0 <= i < |m| ==> Text.IsDigit(m[i]); }
    assert FormatTimeOfDay(t) == h + [':'] + m;
    Text.SplitCons(h, ':', m);
    Text.SplitNone(m, ':');
    Text.ParseNatToDecimal(t.hours);
    Text.ParseNatToDecimal(t.minutes);
  }

  /** The seed group's "20:00" is eight in the evening. */
  lemma ParseTwentyHundred()
    ensures ParseDeadlineTime("20:00") == Some(TimeOfDay(20, 0))
  {
    Text.SplitCons("20", ':', "00");
    Text.SplitNone("00", ':');
    assert "20" + [':'] + "00" == "20:00";
    assert Text.Split("20:00", ':') == ["20", "00"];
    assert "00"[..1] == "0" && "0"[..0] == [];
    assert Text.ParseDecimal("0") == Some(0);
    assert Text.ParseDecimal("20") == Some(20) && Text.ParseDecimal("00") == Some(0);
  }

  /** `deadline.setHours(hours, minutes, 0, 0)` on a date taken at `now`: that day's deadline instant. */
  function DeadlineOn(now: int, t: TimeOfDay): (d: int)
    ensures d >= StartOfDay(now)
    ensures IsClockTime(t) ==> DayOf(d) == DayOf(now)
    ensures IsClockTime(t) ==> d % DayMs == OffsetMs(t)
  {
    StartOfDay(now) + OffsetMs(t)
  }

  /** The deadline has passed at `now` exactly when the time of day of `now` is later than it. */
  lemma {:induction false} PastDeadlineIffLaterTimeOfDay(now: int, t: TimeOfDay)
    ensures now > DeadlineOn(now, t) <==> now % DayMs > OffsetMs(t)
  {
    assert now == StartOfDay(now) + now % DayMs;
  }
}
