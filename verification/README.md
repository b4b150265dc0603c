# TrumpWatch dashboard core, modelled in Dafny

TrumpWatch is a dashboard with two front ends: a web page and an Android home-screen widget. This project models the four pieces of it that carry logic, and proves properties of each:

- **The countdown engine.** It exists twice: `calculateTime` in the page and `WidgetUtils.calculateCountdown` in the widget. At a given instant it splits the time left in the 2025–2029 term into days, hours, minutes and seconds. It also gives the 1-indexed "Day N of 1461" and the percentage of the term elapsed, and it freezes once the term is over. Time is an `int` of epoch milliseconds and the term is a `TermWindow` parameter spanning exactly 1461 days. The lemma `CountdownAgreement.EnginesAgree` proves that the two engines agree at every instant.
- **The quote carousel's index logic.** This covers the auto-rotate step, the swipe gesture with its 50 px threshold and wrap-around, and the dot buttons.
- **The derive-or-fallback rules of every data fetcher** in the page's `api.ts` and in the widget's `fetchMarketData`. Each HTTP request and JSON read becomes an input outcome: `Fetch<T>` (`Ok`, `Missing`, `Failed`) for the TypeScript optional chains, and `Try<T>` (`Value`, `Threw`) for Kotlin's throwing `org.json` accessors. The model computes the returned record from those outcomes: change values, baselines, fallback literals, and which failures propagate. The widget's `format*` helpers are modelled only as far as the null and sign decisions go.
- **The page's `DashboardState` transitions**: the initial state, the start and end of `loadData` (whose `Promise.all` fails as a whole), and `handleQuoteIndexChange`.

Amounts are `real`: the model checks the intended arithmetic, not IEEE rounding. Kotlin's truncating `/` and `%` and JavaScript's `Math.floor` and `%` are written out in `Arith`.

Files: `wrappers.dfy` (outcome types), `arith.dfy`, `term.dfy` (the term, the snapshot and clock facts), `countdown.dfy` (page), `widget_countdown.dfy`, `widget_market.dfy` and `widget_format.dfy` (widget), `countdown_agreement.dfy`, `api.dfy`, `quote_carousel.dfy`, `app.dfy`.

## Model

| member | source | states |
|---|---|---|
| Arith.TruncDiv | android/app/src/main/java/com/trumpwatch/app/widget/WidgetUtils.kt:61-66 | Kotlin's `/` truncates toward zero: the remainder it leaves has the dividend's sign and is smaller than the divisor |
| Arith.TruncToInt | android/app/src/main/java/com/trumpwatch/app/widget/WidgetUtils.kt:199 | `Double.toLong()` drops the fraction toward zero: the result is within one of the input, on the zero side |
| Arith.TruncRem | android/app/src/main/java/com/trumpwatch/app/widget/WidgetUtils.kt:62-64 | the `%` of Kotlin (and of JavaScript, at Countdown.tsx:30-32 and in the carousel) takes the dividend's sign: it is the remainder the truncating quotient leaves, in [0, b) for a non-negative dividend and in (−b, 0] for a negative one |
| Arith.FloorDiv | src/components/Countdown.tsx:29-34 | `Math.floor(a / b)` for a positive divisor is the unique q with q·b ≤ a < q·b + b, for dividends of either sign |
| Arith.CoerceIn | android/app/src/main/java/com/trumpwatch/app/widget/WidgetUtils.kt:66 | `coerceIn(lo, hi)` on integers gives a result in [lo, hi]: x itself when it lies there, otherwise the bound it passed |
| Arith.CoerceInReal | android/app/src/main/java/com/trumpwatch/app/widget/WidgetUtils.kt:67 | `coerceIn(0.0, 100.0)` on doubles, with the same three cases as on integers |
| Arith.Max | src/components/Countdown.tsx:35 | `Math.max` on integers is one of its arguments and no smaller than either |
| Arith.Min | src/components/Countdown.tsx:35 | `Math.min` on integers is one of its arguments and no larger than either |
| Arith.MaxReal | src/components/Countdown.tsx:36 | `Math.max` on numbers is one of its arguments and no smaller than either |
| Arith.MinReal | src/components/Countdown.tsx:36 | `Math.min` on numbers is one of its arguments and no larger than either |
| Arith.MaxMinIsCoerceIn | src/components/Countdown.tsx:35 | the page's `Math.max(lo, Math.min(hi, x))` is the widget's `coerceIn(lo, hi)` for every integer x |
| Arith.MaxMinIsCoerceInReal | src/components/Countdown.tsx:36 | the same identity on numbers, as used for the percentage |
| Term.TermAtOffset | android/app/src/main/java/com/trumpwatch/app/widget/WidgetUtils.kt:18-26 | the widget's term is noon local time on 2025-01-20 and on 2029-01-20, with one zone offset for both dates; it spans exactly 1461 days, the leap day of 2028 included |
| Term.WebTerm | src/components/Countdown.tsx:13-14 | the page's term is noon at UTC-05:00 on both dates, epoch ms 1737392400000 to 1863622800000, again exactly 1461 days |
| Term.FloorClock | src/components/Countdown.tsx:29-32 | splitting a positive remaining time with floor division and remainders gives days ≥ 0, hours < 24, minutes < 60 and seconds < 60, which add up to the remaining time less its sub-second part |
| Term.RawPercentFacts | src/components/Countdown.tsx:36 | the unclamped share `timePassed / totalDuration * 100` is ≤ 0 before the start, lies in [0, 100] during the term, and grows with the time passed |
| Countdown.InitialTime | src/components/Countdown.tsx:6-9 | before the first tick the page holds all zeros with a term of 1461 days, so it reads "Day 0" |
| Countdown.CalculateTime | src/components/Countdown.tsx:12-44 | once no time is left the reading is exactly the frozen one (zeros, Day 1461 of 1461, 100%); otherwise the clock shows the time left to the second, with fields in range. The day counter lies in [1, 1461] and is 1 before the end of the first day. The percentage lies in [0, 100], is 0 up to the start, and within the term equals time passed / term length × 100, with the length taken from the two dates |
| Countdown.DayCounter | src/components/Countdown.tsx:34-41 | throughout day k of the term (0 ≤ k < 1461) the page says "Day k+1"; at the start of that day the clock shows exactly 1461 − k days and nothing else |
| Countdown.PercentMonotone | src/components/Countdown.tsx:17-36 | the percentage never decreases as time advances, across the end of the term too |
| Countdown.ClockMonotone | src/components/Countdown.tsx:18-35 | a later tick shows a (days, hours, minutes, seconds) tuple lexicographically no greater, and a day counter no smaller |
| Countdown.ClockTicksDown | src/components/Countdown.tsx:18-32 | within the term, a tick one second or more later shows strictly less time |
| Countdown.InitialIsNeverComputed | src/components/Countdown.tsx:6-41 | no tick reproduces the initial state, because every computed day counter is ≥ 1 |
| Countdown.DayTwoOfWebTerm | src/components/Countdown.tsx:13-41 | one day after the page's start: Day 2, 1460 days left, 100/1461 % done |
| WidgetCountdown.CalculateCountdown | android/app/src/main/java/com/trumpwatch/app/widget/WidgetUtils.kt:52-78 | the widget's reading has the same guarantees as the page's: the frozen reading once no time is left, an in-range clock that shows the time left, a day counter in [1, 1461] that is 1 during the first day and before it, and a percentage in [0, 100] that is 0 up to the start |
| WidgetCountdown.PercentMonotone | android/app/src/main/java/com/trumpwatch/app/widget/WidgetUtils.kt:54-67 | the widget's percentage never decreases as time advances, across the terminal branch too |
| WidgetCountdown.TerminalIsHeld | android/app/src/main/java/com/trumpwatch/app/widget/WidgetUtils.kt:57-59 | from the end of the term on, every later reading is the same frozen one |
| CountdownAgreement.EnginesAgree | android/app/src/main/java/com/trumpwatch/app/widget/WidgetUtils.kt:61-67 | the widget's truncating engine and the page's flooring engine produce the same snapshot at every instant, before the start included |
| CountdownAgreement.RawDayCountsDifferBeforeStart | android/app/src/main/java/com/trumpwatch/app/widget/WidgetUtils.kt:66 | one ms before the start, the raw day counts differ (truncation 0, floor −1) but both engines say Day 1, because the clamp hides the difference |
| CountdownAgreement.EasternDeviceShowsThePage | src/components/Countdown.tsx:13-14 | on a device at UTC-05:00 in January, the widget shows exactly what the page shows |
| WidgetMarket.DebtBlock | android/app/src/main/java/com/trumpwatch/app/widget/WidgetUtils.kt:90-110 | a throw in the first request leaves both debt and baseline null; otherwise the debt is the parsed latest amount; the baseline is set exactly when the second request also returns a parseable amount |
| WidgetMarket.Sp500Block | android/app/src/main/java/com/trumpwatch/app/widget/WidgetUtils.kt:112-132 | the index is x exactly when the first observation parses to x. The change is set exactly when that index is set and a second observation parses to a positive prev, and it then equals (cur − prev)/prev·100 |
| WidgetMarket.GasBlock | android/app/src/main/java/com/trumpwatch/app/widget/WidgetUtils.kt:134-150 | any throw gives the fallback 2.95; an empty array gives null; otherwise the price is whatever the first value parsed to |
| WidgetMarket.BitcoinBlock | android/app/src/main/java/com/trumpwatch/app/widget/WidgetUtils.kt:152-164 | the price is set exactly when `usd` is read; the 24 h change is set exactly when both reads succeed |
| WidgetMarket.FetchMarketData | android/app/src/main/java/com/trumpwatch/app/widget/WidgetUtils.kt:80-173 | `debtChange` is set exactly when debt and baseline both parsed, and then equals debt − baseline. `gasChange` is set exactly when `gasPrice` is, and then equals gasPrice − 3.08. A throw in the gas block gives 2.95. Neither change is ever set without its value |
| WidgetMarket.BaselineFailureKeepsDebt | android/app/src/main/java/com/trumpwatch/app/widget/WidgetUtils.kt:98-110 | when the baseline request throws after the latest debt parsed, the debt stays on screen and its change is null |
| WidgetMarket.Sp500ChangeNeedsPositivePrevious | android/app/src/main/java/com/trumpwatch/app/widget/WidgetUtils.kt:121-128 | with a parsed first observation, the index is shown. A change needs a second observation parsed as positive, and then equals the percent formula. With fewer than two observations there is no change |
| WidgetFormat.SignPrefix | android/app/src/main/java/com/trumpwatch/app/widget/WidgetUtils.kt:184 | the prefix is "+" exactly for numbers ≥ 0 and empty exactly for negatives |
| WidgetFormat.FormatDebt | android/app/src/main/java/com/trumpwatch/app/widget/WidgetUtils.kt:175-179 | "---" exactly for a null debt; otherwise the number shown is the debt in trillions at one decimal, with no "+" |
| WidgetFormat.FormatDebtChange | android/app/src/main/java/com/trumpwatch/app/widget/WidgetUtils.kt:181-186 | empty exactly for a null change; a leading "+" exactly when the change is ≥ 0 (the check is made on trillions, which has the same sign); shows the change in trillions at one decimal, followed by "T since Jan 20" |
| WidgetFormat.FormatDebtChangeShort | android/app/src/main/java/com/trumpwatch/app/widget/WidgetUtils.kt:188-193 | the same null, sign and number decisions as the long form, followed by a bare "T" |
| WidgetFormat.FormatSP500 | android/app/src/main/java/com/trumpwatch/app/widget/WidgetUtils.kt:195-200 | "---" exactly for null; otherwise the price truncated toward zero, as a grouped whole number |
| WidgetFormat.FormatPrice | android/app/src/main/java/com/trumpwatch/app/widget/WidgetUtils.kt:202-205 | "---" exactly for null; otherwise the price at two decimals, with no "+" |
| WidgetFormat.FormatGasPrice | android/app/src/main/java/com/trumpwatch/app/widget/WidgetUtils.kt:207-210 | "---" exactly for null; otherwise the price at two decimals, with no "+" (the source repeats `formatPrice` here) |
| WidgetFormat.FormatGasChange | android/app/src/main/java/com/trumpwatch/app/widget/WidgetUtils.kt:212-216 | empty exactly for null; "+" exactly when the change is ≥ 0; shows the change at two decimals |
| WidgetFormat.FormatBtcPrice | android/app/src/main/java/com/trumpwatch/app/widget/WidgetUtils.kt:218-222 | "---" exactly for null; otherwise the price truncated toward zero, grouped |
| WidgetFormat.FormatBtcPriceShort | android/app/src/main/java/com/trumpwatch/app/widget/WidgetUtils.kt:224-228 | "---" exactly for null; otherwise the price in thousands with no decimals |
| WidgetFormat.FormatPercent | android/app/src/main/java/com/trumpwatch/app/widget/WidgetUtils.kt:230-234 | empty exactly for null; "+" exactly when ≥ 0; shows the percentage at two decimals, followed by "% " and the caller's suffix |
| WidgetFormat.FormatPercentShort | android/app/src/main/java/com/trumpwatch/app/widget/WidgetUtils.kt:236-240 | empty exactly for null; "+" exactly when ≥ 0; shows it at one decimal, followed by "%" |
| WidgetFormat.FormatBtcPercent | android/app/src/main/java/com/trumpwatch/app/widget/WidgetUtils.kt:242-246 | empty exactly for null; "+" exactly when ≥ 0; shows it at one decimal, followed by "% 24h" |
| WidgetFormat.IsPositive | android/app/src/main/java/com/trumpwatch/app/widget/WidgetUtils.kt:248 | a null value counts as positive; a present one exactly when it is ≥ 0 |
| WidgetFormat.PlusMatchesPositive | android/app/src/main/java/com/trumpwatch/app/widget/WidgetUtils.kt:212-248 | for every present number, the "+" of the change helpers and `isPositive` make the same decision |
| Api.OrElse | src/services/api.ts:104 | JavaScript `x \|\| d` on a number: x when it is present and non-zero, d otherwise |
| Api.FetchNationalDebt | src/services/api.ts:29-44 | the fetch rejects exactly when either request fails (there is no catch). A missing latest amount reads as 0. A present baseline amount is the baseline. A missing one falls back to the latest total, so the change is zero |
| Api.FetchGasPrice | src/services/api.ts:46-68 | a positive parsed price p gives {p, 3.08, p − 3.08}; anything else gives {2.95, 3.08, −0.13}. In every result change = current − baseline, the price is positive and the baseline is 3.08 |
| Api.FetchExecutiveOrdersCount | src/services/api.ts:70-79 | the registry's count when one arrives, 0 otherwise; it never rejects |
| Api.JsDivide | src/services/api.ts:92 | JavaScript division: finite for a non-zero divisor; with a zero divisor, NaN exactly when the dividend is 0 |
| Api.AsWrittenChange | src/services/api.ts:86-92 | with price p and close q both present, the scaled percent change equals (p − q)/q·100; with q missing it is −90 |
| Api.FetchSP500AsWritten | src/services/api.ts:81-97 | a throw gives {5950, 0, 0}. Otherwise the value is 10 × the price (0 when missing). With both prices present the change is 10(p − q) and the percent (p − q)/q·100. A missing previous close reports −90%. Both missing give NaN. The result is never infinite |
| Api.FetchSP500 | src/services/api.ts:81-97 | corrected: a missing previous close gives change 0 and 0%; whenever the previous close is present it agrees with the code as written |
| Api.MissingPreviousCloseReportsLoss | src/services/api.ts:87 | a SPY price of 600 with no previous close: as written {6000, −54000, −90%}, corrected {6000, 0, 0%} |
| Api.FetchBitcoin | src/services/api.ts:99-111 | a throw gives {100000, 0, 0}. Otherwise change = value − 101000, with the value the price, or 0 when the price is missing (change −101000, not the fallback). The percent is the 24 h change, or 0 |
| Api.FetchGold | src/services/api.ts:113-126 | a throw gives {2650, 0, 0}. Otherwise change = value − 2750 and the percent is 0. A non-zero rate gives value × rate = 1, so no division by zero. A missing or zero rate gives 2650 |
| Api.FetchRandomQuote | src/services/api.ts:137-146 | an ok reply is passed through field by field, so a reply without `value` or `appeared_at` leaves those undefined rather than falling back. A failed request or a non-ok status gives the fixed fallback quote |
| Api.FetchMultipleQuotes | src/services/api.ts:148-154 | exactly max(count, 0) quotes; the i-th is the result of the i-th request, so each is a real quote or the fallback |
| QuoteCarousel.NextPreviousCancel | src/components/QuoteCarousel.tsx:52-60 | on a ring of n ≥ 1 quotes, next and previous stay on the ring and undo each other; next wraps n−1 to 0, previous wraps 0 to n−1 |
| QuoteCarousel.AutoRotate | src/components/QuoteCarousel.tsx:23-31 | no rotation is scheduled exactly when there is at most one quote; otherwise the step from an index on the ring is to the next quote, wrapping |
| QuoteCarousel.OnTouchStart | src/components/QuoteCarousel.tsx:36-39 | touching down records the start and forgets the old end point |
| QuoteCarousel.OnTouchMove | src/components/QuoteCarousel.tsx:41-43 | moving records the end point and keeps the start |
| QuoteCarousel.OnTouchEnd | src/components/QuoteCarousel.tsx:45-61 | an index is emitted only for a swipe of more than 50 px with both coordinates truthy. From an index on the ring, a left swipe emits the next quote and a right swipe the previous one, both wrapping |
| QuoteCarousel.DotClick | src/components/QuoteCarousel.tsx:116-127 | a dot selects its own index, and dots exist exactly when there are two quotes or more |
| QuoteCarousel.EmittedIndexInRange | src/components/QuoteCarousel.tsx:23-127 | with n ≥ 1 and an index on the ring, every index that rotate, swipe or a dot emits lies in [0, n) |
| QuoteCarousel.RunStaysInRange | src/components/QuoteCarousel.tsx:23-127 | any sequence of rotations, swipes and dot clicks from an index on the ring keeps the index on the ring |
| QuoteCarousel.SwipeBackReturns | src/components/QuoteCarousel.tsx:52-60 | a left swipe followed by a right swipe returns to the original quote |
| QuoteCarousel.TapEmitsNothing | src/components/QuoteCarousel.tsx:36-46 | a touch that never moves emits nothing |
| QuoteCarousel.TouchAtZeroIgnored | src/components/QuoteCarousel.tsx:46 | a touch starting at x = 0 is ignored, because of the falsy check, however far it moves |
| QuoteCarousel.RightSwipeOnEmptyLeavesRing | src/components/QuoteCarousel.tsx:58-59 | with no quotes, a right swipe emits −1, which is off the ring; a left swipe emits nothing |
| App.InitialState | src/App.tsx:18-29 | every data field is null, there are no quotes, the index is 0, golfDays is 89, loading is true and there is no error |
| App.AwaitAll | src/App.tsx:34-41 | `Promise.all` resolves exactly when all six fetches resolve, and then carries each result unchanged |
| App.LoadFeeds | src/App.tsx:34-41 | a load fails exactly when the debt fetch, the approval fetch or the post-count fetch rejects (the other three catch their own errors); a successful load carries 7 quotes |
| App.Step | src/App.tsx:31-66 | load start sets loading and clears the error, nothing else. Success replaces all six data fields, clears loading and error, and keeps the index and golfDays. Failure sets the fixed error and clears loading, with every data field unchanged, so there is no partial update. An index change sets only the index |
| App.LoadData | src/App.tsx:31-62 | a whole load ends not loading, with index and golfDays kept; a failed one keeps all data and shows the fixed error; a successful one shows no error and 7 quotes |
| App.ReachableStatesKeepInvariant | src/App.tsx:18-66 | in every reachable state golfDays is 89; an error is the fixed message and never shows while loading; the quotes are empty or the 7 of a successful load. The six fetched fields (debt, executive-order count, quotes, gas price, approval rating, post count) are all set or all unset |
| App.StepKeepsInvariant | src/App.tsx:31-66 | every `setState` of the page (load start, load end with success or failure, index change) keeps that invariant |

## Findings

| source | as written | input that shows it | evidently intended | confidence | as-written member | corrected member |
|---|---|---|---|---|---|---|
| src/services/api.ts:87 | a missing `previousClose` falls back to `currentPrice`, which is already ×10, and is then multiplied by 10 again | SPY meta with `regularMarketPrice` 600 and no `previousClose`: value 6000, change −54000, changePercent −90 | fall back to the unscaled price, so the change is 0 and the percent is 0 | high; not executed | Api.FetchSP500AsWritten, exhibited by Api.MissingPreviousCloseReportsLoss | Api.FetchSP500 |

## Edge behaviour of the code

- One day after the start, the clock shows 1460 days left.
- Before the start, the day counter is 1: the elapsed days are clamped to 0 and then counted from one.
- Before the start, the clock shows the time left to the end, which is more than a full term; it is not capped at the term length.
- The remaining time is shown in whole seconds, so it falls strictly only between ticks at least one second apart (`Countdown.ClockTicksDown`); ticks within the same second show the same reading.
- The page's `loadData` uses `Promise.all`: one rejection fails the whole cycle. Only the debt fetch, and the two fetchers outside the model, can reject.

## Left out

- HTTP and JSON plumbing: URLs, API keys, `fetch`, `HttpURLConnection`, connect and read timeouts, `res.json()` and `JSONObject` access. Each request or field read is an input outcome (`Fetch`, `Try`); no network semantics can be verified.
- The widget's executor and main-looper hand-off: it concerns threading only.
- Number text rendering: `String.format`, `NumberFormat`, `toFixed`, `toLocaleString`. The formatters emit a `Number` or `Grouped` piece in place of the digits.
- IEEE doubles: amounts are `real`. `parseFloat` and `toDoubleOrNull` of a non-numeric string are folded into "no usable value". The model has no NaN, except the 0/0 of `fetchSP500`.
- Date parsing and the clock: `new Date()` and `System.currentTimeMillis()` become the `now` parameter. The Android `Calendar` zone becomes one offset shared by both term dates, since both dates are in January.
- Timers: the `setInterval` cadence of the countdown and of the carousel. A single tick or step is modelled.
- `fetchApprovalRating` and `fetchTruthPostsCount`: the page imports them, but no module defines them. Their settled promises are inputs of `App.LoadFeeds`.
- `fetchUnemployment`, `fetchInflation` and `fetchLatestTruth`: they return fixed literals, and nothing in them is derived.
- The carousel's `formatSource`: URL hostname extraction and date formatting are browser APIs.
- Share, clipboard and notification handlers in App.tsx: these are browser APIs.
- Presentational components, the widget providers and `capacitor.config.ts`: they hold layout only. `types.ts` shapes appear as datatypes.
- JavaScript's `count` is modelled as an integer. A fractional count in `fetchMultipleQuotes` is not modelled.
- The default argument of `fetchMultipleQuotes` (5 quotes) is not modelled separately: the page always passes 7, and `Api.FetchMultipleQuotes` takes the count as a parameter.
