/** The countdown of the web page (src/components/Countdown.tsx): one tick
    of `calculateTime`, and the state shown before the first tick. */
module Countdown {
  import opened Arith
  import opened Term

  /** The state before the first tick: every number zero except the term
      length, so the page reads "Day 0 of 1461". */
  function InitialTime(): (t: Snapshot)
    ensures ClockZero(t) && t.percent == 0.0
    ensures t.totalDays == TOTAL_DAYS
    ensures t.daysPassed == 0
  {
    Snapshot(0, 0, 0, 0, 0, 1461, 0.0)
  }

  /** One tick of the page's countdown at instant `now`. The clock fields
      use `Math.floor` and JavaScript's `%`; the day counter floors the days
      elapsed, clamps them to the term and counts from one. */
  function CalculateTime(w: TermWindow, now: int): (t: Snapshot)
    requires FullTerm(w)
    ensures t.totalDays == TOTAL_DAYS
    ensures w.end - now <= 0 ==> t == Finished
    ensures w.end - now > 0 ==> ShowsRemaining(t, w.end - now)
    ensures 1 <= t.daysPassed <= TOTAL_DAYS
    ensures now < w.start + DAY_MS ==> t.daysPassed == 1
    ensures 0.0 <= t.percent <= 100.0
    ensures now <= w.start ==> t.percent == 0.0
    ensures w.start <= now < w.end ==>
      t.percent == (now - w.start) as real * 100.0 / TERM_MS as real
  {
    var totalDuration := w.end - w.start;
    var timeRemaining := w.end - now;
    var timePassed := now - w.start;
    if timeRemaining <= 0 then
      Snapshot(0, 0, 0, 0, 1461, 1461, 100.0)
    else
      var days := FloorDiv(timeRemaining, DAY_MS);
      var hours := FloorDiv(TruncRem(timeRemaining, DAY_MS), HOUR_MS);
      var minutes := FloorDiv(TruncRem(timeRemaining, HOUR_MS), MINUTE_MS);
      var seconds := FloorDiv(TruncRem(timeRemaining, MINUTE_MS), SECOND_MS);
      var daysPassedRaw := FloorDiv(timePassed, DAY_MS);
      var daysPassed := Max(0, Min(1461, daysPassedRaw));
      var percentageComplete := MaxReal(0.0, MinReal(100.0, RawPercent(timePassed, totalDuration)));
      FloorClock(timeRemaining, days, hours, minutes, seconds);
      RawPercentFacts(timePassed, timePassed, totalDuration);
      Snapshot(days, hours, minutes, seconds, daysPassed + 1, 1461, percentageComplete)
  }

  /** Throughout day `k` of the term (counting from zero) the page shows
      "Day k+1"; at the exact start of that day the clock shows the whole
      days left, `1461 - k`, and nothing else. */
  lemma DayCounter(w: TermWindow, k: int, now: int)
    requires FullTerm(w)
    requires 0 <= k < TOTAL_DAYS
    requires w.start + k * DAY_MS <= now < w.start + (k + 1) * DAY_MS
    ensures CalculateTime(w, now).daysPassed == k + 1
    ensures now == w.start + k * DAY_MS ==>
      CalculateTime(w, now).days == TOTAL_DAYS - k && CalculateTime(w, now).hours == 0
      && CalculateTime(w, now).minutes == 0 && CalculateTime(w, now).seconds == 0
  {
  }

  /** The percentage never goes down as time advances, across the end of
      the term included. */
  lemma PercentMonotone(w: TermWindow, now1: int, now2: int)
    requires FullTerm(w) && now1 <= now2
    ensures CalculateTime(w, now1).percent <= CalculateTime(w, now2).percent
  {
  }

  /** A later tick never shows a later clock, and the day counter never goes
      back. */
  lemma ClockMonotone(w: TermWindow, now1: int, now2: int)
    requires FullTerm(w) && now1 <= now2
    ensures ClockLeq(CalculateTime(w, now2), CalculateTime(w, now1))
    ensures CalculateTime(w, now1).daysPassed <= CalculateTime(w, now2).daysPassed
  {
  }

  /** Within the term, a tick one second or more later shows strictly less
      time left. */
  lemma ClockTicksDown(w: TermWindow, now1: int, now2: int)
    requires FullTerm(w) && now1 + SECOND_MS <= now2 < w.end
    ensures ClockMs(CalculateTime(w, now2)) < ClockMs(CalculateTime(w, now1))
  {
  }

  /** No tick reproduces the initial state: a computed day counter starts
      at one. */
  lemma InitialIsNeverComputed(w: TermWindow, now: int)
    requires FullTerm(w)
    ensures CalculateTime(w, now) != InitialTime()
  {
  }

  /** One day after the start of the page's term: "Day 2", 1460 days left,
      1/1461 of the term done. */
  lemma DayTwoOfWebTerm()
    ensures CalculateTime(WebTerm(), WebTerm().start + DAY_MS)
      == Snapshot(1460, 0, 0, 0, 2, TOTAL_DAYS, 100.0 / 1461.0)
  {
  }
}
