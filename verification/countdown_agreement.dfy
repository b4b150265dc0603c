/** The web page and the widget implement the countdown twice, one with
    `Math.floor` and one with Kotlin's truncating division. They show the
    same reading at every instant. */
module CountdownAgreement {
  import opened Arith
  import opened Term
  import Countdown
  import WidgetCountdown

  /** For every instant, before, during and after the term, the two
      engines produce the same snapshot. */
  lemma {:induction false} EnginesAgree(w: TermWindow, now: int)
    requires FullTerm(w)
    ensures WidgetCountdown.CalculateCountdown(w, now) == Countdown.CalculateTime(w, now)
  {
    var c := WidgetCountdown.CalculateCountdown(w, now);
    var t := Countdown.CalculateTime(w, now);
    if w.end - now > 0 {
      ShownClockIsUnique(c, t, w.end - now);
      var passed := now - w.start;
      if passed >= 0 {
        assert TruncDiv(passed, DAY_MS) == FloorDiv(passed, DAY_MS);
      } else {
        assert TruncDiv(passed, DAY_MS) <= 0 && FloorDiv(passed, DAY_MS) < 0;
      }
      MaxMinIsCoerceIn(FloorDiv(passed, DAY_MS), 0, TOTAL_DAYS);
      MaxMinIsCoerceInReal(RawPercent(passed, w.end - w.start), 0.0, 100.0);
    }
  }

  /** The raw day counts do differ one millisecond before the start
      (truncation gives 0, the floor gives -1); the clamp to [0, 1461]
      hides the difference. */
  lemma RawDayCountsDifferBeforeStart(w: TermWindow)
    requires FullTerm(w)
    ensures TruncDiv(-1, DAY_MS) == 0 && FloorDiv(-1, DAY_MS) == -1
    ensures WidgetCountdown.CalculateCountdown(w, w.start - 1).daysPassed == 1
    ensures Countdown.CalculateTime(w, w.start - 1).daysPassed == 1
  {
  }

  /** On a device whose zone is at UTC-05:00 in January, the widget's term
      is the page's term, so widget and page show the same reading. */
  lemma EasternDeviceShowsThePage(now: int)
    ensures WidgetCountdown.CalculateCountdown(TermAtOffset(EASTERN_STANDARD_OFFSET_MS), now)
      == Countdown.CalculateTime(WebTerm(), now)
  {
    EnginesAgree(WebTerm(), now);
  }
}
