/** The presidential term the dashboard counts down, and the snapshot both
    countdown engines (the web page and the Android widget) produce. */
module Term {
  import opened Arith

  const SECOND_MS: int := 1000
  const MINUTE_MS: int := 60_000
  const HOUR_MS: int := 3_600_000
  const DAY_MS: int := 86_400_000

  /** Days from 2025-01-20 to 2029-01-20 (three years of 365 days and 2028 of 366). */
  const TOTAL_DAYS: int := 1461

  /** The term's length in milliseconds, `TOTAL_DAYS * DAY_MS`. */
  const TERM_MS: int := 126_230_400_000

  /** 2025-01-20 12:00 and 2029-01-20 12:00, both UTC, in epoch milliseconds. */
  const NOON_UTC_2025_01_20: int := 1_737_374_400_000
  const NOON_UTC_2029_01_20: int := 1_863_604_800_000

  /** UTC-05:00, the offset the web page writes into its two date strings. */
  const EASTERN_STANDARD_OFFSET_MS: int := -18_000_000

  /** The first and the last instant of the term, in epoch milliseconds. */
  datatype TermWindow = TermWindow(start: int, end: int)

  /** The window spans exactly the 1461 days of the term. */
  predicate FullTerm(w: TermWindow) {
    w.end - w.start == TERM_MS
  }

  /** Both term boundaries at local noon in a zone whose UTC offset is
      `offsetMs` on both dates. The widget reads the two dates through the
      device's calendar; both fall in January, so one offset serves both. */
  function TermAtOffset(offsetMs: int): (w: TermWindow)
    ensures FullTerm(w)
    ensures w.start + offsetMs == NOON_UTC_2025_01_20
    ensures w.end + offsetMs == NOON_UTC_2029_01_20
  {
    TermWindow(NOON_UTC_2025_01_20 - offsetMs, NOON_UTC_2029_01_20 - offsetMs)
  }

  /** The window of the web page: noon at UTC-05:00 on both dates. */
  function WebTerm(): (w: TermWindow)
    ensures FullTerm(w)
    ensures w == TermWindow(1_737_392_400_000, 1_863_622_800_000)
  {
    TermAtOffset(EASTERN_STANDARD_OFFSET_MS)
  }

  /** One countdown reading: the time left split into clock fields, the
      1-indexed day of the term ("Day N of 1461") and the share of the term
      elapsed, in percent. */
  datatype Snapshot = Snapshot(
    days: int, hours: int, minutes: int, seconds: int,
    daysPassed: int, totalDays: int, percent: real)

  /** The reading once the term is over. */
  const Finished: Snapshot := Snapshot(0, 0, 0, 0, TOTAL_DAYS, TOTAL_DAYS, 100.0)

  /** The time the clock fields of `t` stand for, in milliseconds. */
  function ClockMs(t: Snapshot): int {
    t.days * DAY_MS + t.hours * HOUR_MS + t.minutes * MINUTE_MS + t.seconds * SECOND_MS
  }

  /** Every clock field lies in its range: days unbounded above, hours
      below 24, minutes and seconds below 60. */
  predicate ClockInRange(t: Snapshot) {
    0 <= t.days && 0 <= t.hours < 24 && 0 <= t.minutes < 60 && 0 <= t.seconds < 60
  }

  /** The clock of `t` shows `remaining` milliseconds rounded down to a
      whole second. */
  predicate ShowsRemaining(t: Snapshot, remaining: int) {
    ClockInRange(t) && ClockMs(t) <= remaining < ClockMs(t) + SECOND_MS
  }

  /** The clock of `a` reads no later than the clock of `b`, comparing days,
      then hours, then minutes, then seconds. */
  predicate ClockLeq(a: Snapshot, b: Snapshot) {
    || a.days < b.days
    || (a.days == b.days && a.hours < b.hours)
    || (a.days == b.days && a.hours == b.hours && a.minutes < b.minutes)
    || (a.days == b.days && a.hours == b.hours && a.minutes == b.minutes && a.seconds <= b.seconds)
  }

  /** The clock of `t` is all zeros. */
  predicate ClockZero(t: Snapshot) {
    t.days == 0 && t.hours == 0 && t.minutes == 0 && t.seconds == 0
  }

  /** `timePassed / totalDuration * 100`, the share of the term elapsed
      before any clamping; both engines compute it this way. */
  function RawPercent(timePassed: int, totalDuration: int): real
    requires totalDuration > 0
  {
    timePassed as real / totalDuration as real * 100.0
  }

  /** The raw share is non-positive before the start, within [0, 100] during
      the term, and grows with the time passed. */
  lemma RawPercentFacts(x1: int, x2: int, total: int)
    requires total > 0 && x1 <= x2
    ensures RawPercent(x1, total) <= RawPercent(x2, total)
    ensures x1 <= 0 ==> RawPercent(x1, total) <= 0.0
    ensures 0 <= x1 <= total ==> 0.0 <= RawPercent(x1, total) <= 100.0
  {
    var t := total as real;
    assert x1 as real / t <= x2 as real / t;
    assert 0 <= x1 <= total ==> x1 as real / t <= 1.0;
  }

  /** Splitting a positive remaining time with floor division and
      remainders gives a clock that shows it. */
  lemma FloorClock(remaining: int, days: int, hours: int, minutes: int, seconds: int)
    requires remaining > 0
    requires days == remaining / DAY_MS
    requires hours == (remaining % DAY_MS) / HOUR_MS
    requires minutes == (remaining % HOUR_MS) / MINUTE_MS
    requires seconds == (remaining % MINUTE_MS) / SECOND_MS
    ensures ShowsRemaining(Snapshot(days, hours, minutes, seconds, 0, 0, 0.0), remaining)
  {
    var rd := remaining % DAY_MS;
    var rh := rd % HOUR_MS;
    DivModUnique(remaining, HOUR_MS, 24 * days + hours, rh);
    var rm := rh % MINUTE_MS;
    DivModUnique(remaining, MINUTE_MS, 1440 * days + 60 * hours + minutes, rm);
  }

  /** Two clocks in range that show the same amount of time show the same
      fields. */
  lemma ShownClockIsUnique(a: Snapshot, b: Snapshot, remaining: int)
    requires ShowsRemaining(a, remaining) && ShowsRemaining(b, remaining)
    ensures a.days == b.days && a.hours == b.hours && a.minutes == b.minutes && a.seconds == b.seconds
  {
    ClockOrderFollowsTime(a, b, remaining, remaining);
    ClockOrderFollowsTime(b, a, remaining, remaining);
  }

  /** Less time left never shows a later clock. */
  lemma ClockOrderFollowsTime(a: Snapshot, b: Snapshot, ra: int, rb: int)
    requires ShowsRemaining(a, ra) && ShowsRemaining(b, rb) && ra <= rb
    ensures ClockLeq(a, b)
  {
    assert ClockMs(a) < ClockMs(b) + SECOND_MS;
  }

  /** Once the remaining times are a whole second apart, the clocks differ. */
  lemma ClockStrictlyFollowsTime(a: Snapshot, b: Snapshot, ra: int, rb: int)
    requires ShowsRemaining(a, ra) && ShowsRemaining(b, rb) && ra + SECOND_MS <= rb
    ensures ClockLeq(a, b) && ClockMs(a) < ClockMs(b)
  {
    ClockOrderFollowsTime(a, b, ra, rb);
  }
}
