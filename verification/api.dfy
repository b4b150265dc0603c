/** The web page's data fetchers (src/services/api.ts). Each request and
    JSON read is replaced by its outcome; what is modelled is how a fetcher
    turns those outcomes into the record it returns: derived changes,
    baselines, fallback literals, and which failures propagate. */
module Api {
  import opened Wrappers

  /** Regular gasoline, Bitcoin and gold on 2025-01-20, in dollars. */
  const GAS_BASELINE_JAN20: real := 3.08
  const BITCOIN_BASELINE_JAN20: real := 101000.0
  const GOLD_BASELINE_JAN20: real := 2750.0

  /** JavaScript truthiness of a number that may be absent: `undefined` and
      `0` are falsy. */
  predicate Truthy(x: Option<real>) {
    x.Some? && x.value != 0.0
  }

  /** JavaScript's `x || fallback` on a number that may be absent. */
  function OrElse(x: Option<real>, fallback: real): (r: real)
    ensures Truthy(x) ==> r == x.value
    ensures !Truthy(x) ==> r == fallback
  {
    if Truthy(x) then x.value else fallback
  }

  // ---------------------------------------------------------------- debt

  /** The first element of the `data` array of a Treasury reply:
      `tot_pub_debt_out_amt` as a number (`None` when absent or empty) and
      `record_date`. */
  datatype DebtRow = DebtRow(amount: Option<real>, recordDate: Option<string>)

  /** The debt as the page holds it: the latest total, its date, and the
      total on the first record of the term. */
  datatype DebtData = DebtData(totalDebt: real, recordDate: Option<string>, baselineDebt: real)

  /** The amount a Treasury reply reports, when its first row has one. */
  function RowAmount(reply: Fetch<DebtRow>): Option<real> {
    if reply.Ok? then reply.value.amount else None
  }

  /** The debt growth the page shows, `total_debt - baseline_debt`. */
  function DebtChange(d: DebtData): real {
    d.totalDebt - d.baselineDebt
  }

  /** `fetchNationalDebt`: two requests, no catch. A missing latest amount
      reads as 0; a missing baseline amount falls back to the latest one. */
  function FetchNationalDebt(latest: Fetch<DebtRow>, baseline: Fetch<DebtRow>): (r: Settled<DebtData>)
    ensures r.Rejected? <==> latest.Failed? || baseline.Failed?
    ensures r.Resolved? ==> r.value.totalDebt == RowAmount(latest).GetOr(0.0)
    ensures r.Resolved? && RowAmount(baseline).Some? ==>
      r.value.baselineDebt == RowAmount(baseline).value
    ensures r.Resolved? && RowAmount(baseline).None? ==> DebtChange(r.value) == 0.0
    ensures r.Resolved? && latest.Missing? ==> r.value.recordDate.None?
  {
    if latest.Failed? || baseline.Failed? then Rejected
    else
      var current := if RowAmount(latest).Some? then RowAmount(latest).value else 0.0;
      var base := if RowAmount(baseline).Some? then RowAmount(baseline).value else current;
      Resolved(DebtData(current, if latest.Ok? then latest.value.recordDate else None, base))
  }

  // ----------------------------------------------------------------- gas

  datatype GasData = GasData(currentPrice: real, baselinePrice: real, change: real)

  /** What `fetchGasPrice` returns on any failure. */
  const GasFallback: GasData := GasData(2.95, 3.08, -0.13)

  /** `fetchGasPrice`; `price` is `response.data[0].value` parsed. A price
      that is missing, unparseable or not positive is thrown away as
      invalid, and every throw yields the fallback. */
  function FetchGasPrice(price: Fetch<real>): (g: GasData)
    ensures price.Ok? && price.value > 0.0 ==>
      g.currentPrice == price.value && g.baselinePrice == GAS_BASELINE_JAN20
    ensures !(price.Ok? && price.value > 0.0) ==> g == GasFallback
    ensures g.change == g.currentPrice - g.baselinePrice
    ensures g.currentPrice > 0.0 && g.baselinePrice == GAS_BASELINE_JAN20
  {
    if price.Failed? then GasFallback
    else
      var currentPrice := if price.Ok? then price.value else 0.0;
      if currentPrice > 0.0 then
        GasData(currentPrice, GAS_BASELINE_JAN20, currentPrice - GAS_BASELINE_JAN20)
      else
        GasFallback
  }

  // ----------------------------------------------------- executive orders

  /** `fetchExecutiveOrdersCount`: the registry's `count`, or 0 when it is
      absent or anything fails. It never rejects. */
  function FetchExecutiveOrdersCount(count: Fetch<int>): (n: int)
    ensures count.Ok? ==> n == count.value
    ensures !count.Ok? ==> n == 0
  {
    match count
    case Ok(c) => if c != 0 then c else 0
    case _ => 0
  }

  // --------------------------------------------------------------- S&P 500

  /** A JavaScript number as far as a division can make it: finite, `NaN`
      (0/0), or an infinity (nonzero/0). */
  datatype JsNumber = Finite(value: real) | NaN | Infinity(negative: bool)

  /** JavaScript's `a / b`. */
  function JsDivide(a: real, b: real): (q: JsNumber)
    ensures b != 0.0 ==> q == Finite(a / b)
    ensures b == 0.0 ==> (q.NaN? <==> a == 0.0)
  {
    if b != 0.0 then Finite(a / b) else if a == 0.0 then NaN else Infinity(a < 0.0)
  }

  /** JavaScript's `n * k` for a positive finite `k`. */
  function JsScale(n: JsNumber, k: real): JsNumber
    requires k > 0.0
  {
    match n
    case Finite(v) => Finite(v * k)
    case NaN => NaN
    case Infinity(neg) => Infinity(neg)
  }

  /** `chart.result[0].meta` of the quote reply for SPY. */
  datatype SpyMeta = SpyMeta(regularMarketPrice: Option<real>, previousClose: Option<real>)

  datatype SP500Data = SP500Data(value: real, change: real, changePercent: JsNumber)

  /** What `fetchSP500` returns when it throws. */
  const SP500Fallback: SP500Data := SP500Data(5950.0, 0.0, Finite(0.0))

  /** The meta object, with a missing one read as having no fields. */
  function MetaOf(meta: Fetch<SpyMeta>): SpyMeta {
    if meta.Ok? then meta.value else SpyMeta(None, None)
  }

  /** Index level and percent change from two present SPY prices. */
  lemma ScaledChange(p: real, q: real)
    requires q != 0.0
    ensures (p * 10.0 - q * 10.0) / (q * 10.0) * 100.0 == (p - q) / q * 100.0
  {
    assert (p * 10.0 - q * 10.0) / (q * 10.0) == (p - q) / q;
  }

  /** A missing previous close fallen back to the scaled price and scaled
      again: a loss of 90%. */
  lemma DoublyScaledClose(p: real)
    requires p != 0.0
    ensures (p * 10.0 - p * 10.0 * 10.0) / (p * 10.0 * 10.0) * 100.0 == -90.0
  {
    assert (p * 10.0 - p * 10.0 * 10.0) == -0.9 * (p * 10.0 * 10.0);
  }

  /** The percent change `fetchSP500` computes, when the price is present. */
  lemma AsWrittenChange(price: Option<real>, close: Option<real>)
    ensures var cur := OrElse(price, 0.0) * 10.0;
      var prev := OrElse(close, cur) * 10.0;
      && (Truthy(price) && Truthy(close) ==>
            prev != 0.0 && (cur - prev) / prev * 100.0 == (price.value - close.value) / close.value * 100.0)
      && (Truthy(price) && !Truthy(close) ==> prev != 0.0 && (cur - prev) / prev * 100.0 == -90.0)
  {
    if Truthy(price) && Truthy(close) {
      ScaledChange(price.value, close.value);
    } else if Truthy(price) {
      DoublyScaledClose(price.value);
    }
  }

  /** `fetchSP500` as written: SPY prices scaled by ten to approximate the
      index. A missing `previousClose` falls back to the already scaled
      price and is then scaled again. */
  function FetchSP500AsWritten(meta: Fetch<SpyMeta>): (r: SP500Data)
    ensures meta.Failed? ==> r == SP500Fallback
    ensures !meta.Failed? ==> r.value == OrElse(MetaOf(meta).regularMarketPrice, 0.0) * 10.0
    ensures !meta.Failed? && Truthy(MetaOf(meta).regularMarketPrice) && Truthy(MetaOf(meta).previousClose) ==>
      var p := MetaOf(meta).regularMarketPrice.value;
      var q := MetaOf(meta).previousClose.value;
      r.change == (p - q) * 10.0 && r.changePercent == Finite((p - q) / q * 100.0)
    ensures !meta.Failed? && Truthy(MetaOf(meta).regularMarketPrice) && !Truthy(MetaOf(meta).previousClose) ==>
      r.changePercent == Finite(-90.0)
    ensures !meta.Failed? && !Truthy(MetaOf(meta).regularMarketPrice) && !Truthy(MetaOf(meta).previousClose) ==>
      r.changePercent == NaN
    ensures !r.changePercent.Infinity?
  {
    if meta.Failed? then SP500Fallback
    else
      var quote := MetaOf(meta);
      var currentPrice := OrElse(quote.regularMarketPrice, 0.0) * 10.0;
      var previousClose := OrElse(quote.previousClose, currentPrice) * 10.0;
      AsWrittenChange(quote.regularMarketPrice, quote.previousClose);
      SP500Data(currentPrice, currentPrice - previousClose,
                JsScale(JsDivide(currentPrice - previousClose, previousClose), 100.0))
  }

  /** `fetchSP500` with the evidently intended fallback: a missing
      `previousClose` is the unscaled price, so the change is zero. */
  function FetchSP500(meta: Fetch<SpyMeta>): (r: SP500Data)
    ensures meta.Failed? ==> r == SP500Fallback
    ensures !meta.Failed? ==> r.value == OrElse(MetaOf(meta).regularMarketPrice, 0.0) * 10.0
    ensures !meta.Failed? && Truthy(MetaOf(meta).regularMarketPrice) && !Truthy(MetaOf(meta).previousClose) ==>
      r.change == 0.0 && r.changePercent == Finite(0.0)
    ensures !meta.Failed? && Truthy(MetaOf(meta).previousClose) ==> r == FetchSP500AsWritten(meta)
    ensures !r.changePercent.Infinity?
  {
    if meta.Failed? then SP500Fallback
    else
      var quote := MetaOf(meta);
      var price := OrElse(quote.regularMarketPrice, 0.0);
      var currentPrice := price * 10.0;
      var previousClose := OrElse(quote.previousClose, price) * 10.0;
      SP500Data(currentPrice, currentPrice - previousClose,
                JsScale(JsDivide(currentPrice - previousClose, previousClose), 100.0))
  }

  /** A SPY price of 600 without a previous close: as written the page
      reports a 90% fall; the intended reading is no change. */
  lemma MissingPreviousCloseReportsLoss()
    ensures FetchSP500AsWritten(Ok(SpyMeta(Some(600.0), None))) == SP500Data(6000.0, -54000.0, Finite(-90.0))
    ensures FetchSP500(Ok(SpyMeta(Some(600.0), None))) == SP500Data(6000.0, 0.0, Finite(0.0))
  {
  }

  // --------------------------------------------------------------- Bitcoin

  /** The `bitcoin` object of the price reply. */
  datatype BtcQuote = BtcQuote(usd: Option<real>, usd24hChange: Option<real>)

  datatype BitcoinData = BitcoinData(value: real, change: real, changePercent: real)

  /** What `fetchBitcoin` returns when it throws. */
  const BitcoinFallback: BitcoinData := BitcoinData(100000.0, 0.0, 0.0)

  function QuoteOf(quote: Fetch<BtcQuote>): BtcQuote {
    if quote.Ok? then quote.value else BtcQuote(None, None)
  }

  /** `fetchBitcoin`: the USD price and its change from the Jan-20
      baseline. A missing price reads as 0, not as the fallback. */
  function FetchBitcoin(quote: Fetch<BtcQuote>): (b: BitcoinData)
    ensures quote.Failed? ==> b == BitcoinFallback
    ensures !quote.Failed? ==> b.change == b.value - BITCOIN_BASELINE_JAN20
    ensures !quote.Failed? && Truthy(QuoteOf(quote).usd) ==> b.value == QuoteOf(quote).usd.value
    ensures !quote.Failed? && !Truthy(QuoteOf(quote).usd) ==>
      b.value == 0.0 && b.change == -BITCOIN_BASELINE_JAN20
    ensures !quote.Failed? ==> b.changePercent == OrElse(QuoteOf(quote).usd24hChange, 0.0)
  {
    if quote.Failed? then BitcoinFallback
    else
      var bitcoin := QuoteOf(quote);
      BitcoinData(OrElse(bitcoin.usd, 0.0), OrElse(bitcoin.usd, 0.0) - BITCOIN_BASELINE_JAN20,
                  OrElse(bitcoin.usd24hChange, 0.0))
  }

  // ------------------------------------------------------------------ gold

  datatype GoldData = GoldData(value: real, change: real, changePercent: real)

  /** The gold price used when the rate is absent or zero. */
  const GOLD_DEFAULT: real := 2650.0

  /** What `fetchGold` returns when it throws. */
  const GoldFallback: GoldData := GoldData(2650.0, 0.0, 0.0)

  /** `fetchGold`; `xau` is `rates.XAU`, ounces of gold per dollar. The
      price is its reciprocal, guarded by truthiness so a zero rate is never
      divided by. */
  function FetchGold(xau: Fetch<real>): (g: GoldData)
    ensures xau.Failed? ==> g == GoldFallback
    ensures !xau.Failed? ==> g.change == g.value - GOLD_BASELINE_JAN20 && g.changePercent == 0.0
    ensures xau.Ok? && xau.value != 0.0 ==> g.value * xau.value == 1.0
    ensures !(xau.Ok? && xau.value != 0.0) ==> g.value == GOLD_DEFAULT
  {
    if xau.Failed? then GoldFallback
    else
      var rate := if xau.Ok? then Some(xau.value) else None;
      var goldPrice := if Truthy(rate) then 1.0 / rate.value else GOLD_DEFAULT;
      GoldData(goldPrice, goldPrice - GOLD_BASELINE_JAN20, 0.0)
  }

  // ---------------------------------------------------------------- quotes

  /** A quote as the page holds it. The text and date are whatever the
      reply's `value` and `appeared_at` keys held, so a reply without them
      leaves them undefined (`None`). */
  datatype QuoteData = QuoteData(value: Option<string>, appearedAt: Option<string>, sourceUrl: Option<string>)

  /** The outcome of one quote request: the request or its body failed,
      the status was not ok, or an ok reply arrived, carrying whichever of
      `value`, `appeared_at` and `_embedded.source[0].url` it held. */
  datatype QuoteReply =
    | Unreachable
    | NotOk
    | Received(value: Option<string>, appearedAt: Option<string>, sourceUrl: Option<string>)

  /** What `fetchRandomQuote` returns on any failure. */
  const FallbackQuote: QuoteData :=
    QuoteData(Some("I will fight for you with every breath in my body."), Some("2017-01-20"), None)

  /** `fetchRandomQuote`: the received quote, or the fixed fallback. It
      never rejects, and an ok reply is passed through even when its keys
      are missing: only a failed request or a non-ok status falls back. */
  function FetchRandomQuote(reply: QuoteReply): (q: QuoteData)
    ensures reply.Received? ==>
      q.value == reply.value && q.appearedAt == reply.appearedAt && q.sourceUrl == reply.sourceUrl
    ensures !reply.Received? ==> q == FallbackQuote
  {
    match reply
    case Received(v, at, url) => QuoteData(v, at, url)
    case _ => FallbackQuote
  }

  /** `fetchMultipleQuotes(count)`: `count` quotes requested one after the
      other; `reply(i)` is the outcome of the i-th request. */
  function FetchMultipleQuotes(count: int, reply: nat -> QuoteReply): (qs: seq<QuoteData>)
    ensures |qs| == if count > 0 then count else 0
    ensures forall i :: 0 <= i < |qs| ==> qs[i] == FetchRandomQuote(reply(i))
    ensures forall i :: 0 <= i < |qs| ==> qs[i] == FallbackQuote || reply(i).Received?
    decreases count
  {
    if count <= 0 then []
    else FetchMultipleQuotes(count - 1, reply) + [FetchRandomQuote(reply(count - 1))]
  }
}
