/** The widget's countdown (`WidgetUtils.calculateCountdown` in the Android
    home-screen widget). */
module WidgetCountdown {
  import opened Arith
  import opened Term

  /** The widget's countdown at instant `now`. The clock fields use
      Kotlin's truncating `/` and `%` on `Long`; the day counter truncates
      the days elapsed, coerces them into [0, 1461] and counts from one.
      The constant 1000*60*60*24 fits an `Int`, and the final
      `(daysPassedRaw + 1).toInt()` never exceeds 1462, so no value wraps. */
  function CalculateCountdown(w: TermWindow, now: int): (c: Snapshot)
    requires FullTerm(w)
    ensures c.totalDays == TOTAL_DAYS
    ensures w.end - now <= 0 ==> c == Finished
    ensures w.end - now > 0 ==> ShowsRemaining(c, w.end - now)
    ensures 1 <= c.daysPassed <= TOTAL_DAYS
    ensures now < w.start + DAY_MS ==> c.daysPassed == 1
    ensures 0.0 <= c.percent <= 100.0
    ensures now <= w.start ==> c.percent == 0.0
  {
    var timeRemaining := w.end - now;
    var timePassed := now - w.start;
    if timeRemaining <= 0 then
      Snapshot(0, 0, 0, 0, TOTAL_DAYS, TOTAL_DAYS, 100.0)
    else
      var days := TruncDiv(timeRemaining, DAY_MS);
      var hours := TruncDiv(TruncRem(timeRemaining, DAY_MS), HOUR_MS);
      var minutes := TruncDiv(TruncRem(timeRemaining, HOUR_MS), MINUTE_MS);
      var seconds := TruncDiv(TruncRem(timeRemaining, MINUTE_MS), SECOND_MS);
      var daysPassedRaw := CoerceIn(TruncDiv(timePassed, DAY_MS), 0, TOTAL_DAYS);
      var percentComplete := CoerceInReal(RawPercent(timePassed, w.end - w.start), 0.0, 100.0);
      FloorClock(timeRemaining, days, hours, minutes, seconds);
      RawPercentFacts(timePassed, timePassed, w.end - w.start);
      Snapshot(days, hours, minutes, seconds, daysPassedRaw + 1, TOTAL_DAYS, percentComplete)
  }

  /** The percentage never goes down as time advances, across the end of
      the term included. */
  lemma PercentMonotone(w: TermWindow, now1: int, now2: int)
    requires FullTerm(w) && now1 <= now2
    ensures CalculateCountdown(w, now1).percent <= CalculateCountdown(w, now2).percent
  {
    if now2 < w.end {
      RawPercentFacts(now1 - w.start, now2 - w.start, w.end - w.start);
    }
  }

  /** Past the end every later reading is the same frozen one. */
  lemma TerminalIsHeld(w: TermWindow, now1: int, now2: int)
    requires FullTerm(w) && w.end <= now1 <= now2
    ensures CalculateCountdown(w, now1) == CalculateCountdown(w, now2) == Finished
  {
  }
}
