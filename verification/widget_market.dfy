/** The widget's market refresh (`WidgetUtils.fetchMarketData`), with each
    HTTP request and JSON access replaced by its outcome. Each of the four
    blocks runs in its own try/catch, so a throw ends only that block and
    keeps whatever the block had assigned before it. */
module WidgetMarket {
  import opened Wrappers

  /** Regular gasoline on 2025-01-20, in dollars per gallon. */
  const GAS_BASELINE: real := 3.08

  /** The price the gas block substitutes when it throws. */
  const GAS_FALLBACK: real := 2.95

  /** What the widget draws; `None` is Kotlin's `null`. */
  datatype MarketData = MarketData(
    nationalDebt: Option<real>, debtChange: Option<real>,
    sp500Price: Option<real>, sp500ChangePercent: Option<real>,
    bitcoinPrice: Option<real>, bitcoinChangePercent: Option<real>,
    gasPrice: Option<real>, gasChange: Option<real>)

  /** The outcomes of the refresh's requests. A parsed number is
      `Value(Some(x))`; `Value(None)` is a string that `toDoubleOrNull`
      rejects; `Threw` is an exception on the way (network, timeout, an
      absent key).
      - `debtLatest`, `debtBaseline`: `tot_pub_debt_out_amt` of the newest
        record and of the first record on or after 2025-01-20;
      - `sp500Observations`: the `observations` array, newest first, each
        element the outcome of reading its `value`;
      - `gasData`: the `response.data` array, each element the outcome of
        reading its `value`;
      - `btcUsd`, `btcChange24h`: `bitcoin.usd` and `bitcoin.usd_24h_change`. */
  datatype Responses = Responses(
    debtLatest: Try<Option<real>>,
    debtBaseline: Try<Option<real>>,
    sp500Observations: Try<seq<Try<Option<real>>>>,
    gasData: Try<seq<Try<Option<real>>>>,
    btcUsd: Try<real>,
    btcChange24h: Try<real>)

  /** A pair of nullable readings: a value and what is derived from it. */
  datatype Reading = Reading(primary: Option<real>, secondary: Option<real>)

  /** The element at `i` was read and parsed to `x`. */
  predicate ParsedAt(items: seq<Try<Option<real>>>, i: nat, x: real) {
    i < |items| && items[i] == Value(Some(x))
  }

  /** The debt block: the latest amount, then the baseline amount. The
      baseline request is made only when the first one did not throw. */
  function DebtBlock(latest: Try<Option<real>>, baseline: Try<Option<real>>): (r: Reading)
    ensures latest.Threw? ==> r == Reading(None, None)
    ensures latest.Value? ==> r.primary == latest.value
    ensures r.secondary.Some? <==> latest.Value? && baseline.Value? && baseline.value.Some?
    ensures r.secondary.Some? ==> r.secondary.value == baseline.value.value
  {
    match latest
    case Threw => Reading(None, None)
    case Value(debt) =>
      match baseline
      case Threw => Reading(debt, None)
      case Value(b) => Reading(debt, b)
  }

  /** The S&P 500 block: the newest observation, and the percent change
      from the one before it when that parses to a positive number. */
  function Sp500Block(observations: Try<seq<Try<Option<real>>>>): (r: Reading)
    ensures forall x :: r.primary == Some(x) <==>
      observations.Value? && ParsedAt(observations.value, 0, x)
    ensures r.secondary.Some? <==>
      observations.Value? && r.primary.Some? && |observations.value| >= 2
      && observations.value[1].Value? && observations.value[1].value.Some?
      && observations.value[1].value.value > 0.0
    ensures r.secondary.Some? ==>
      var prev := observations.value[1].value.value;
      r.secondary.value == (r.primary.value - prev) / prev * 100.0
  {
    match observations
    case Threw => Reading(None, None)
    case Value(items) =>
      if |items| >= 1 then
        match items[0]
        case Threw => Reading(None, None)
        case Value(sp500) =>
          if |items| >= 2 && sp500.Some? then
            match items[1]
            case Threw => Reading(sp500, None)
            case Value(prevValue) =>
              if prevValue.Some? && prevValue.value > 0.0 then
                Reading(sp500, Some((sp500.value - prevValue.value) / prevValue.value * 100.0))
              else Reading(sp500, None)
          else Reading(sp500, None)
      else Reading(None, None)
  }

  /** The gas block: the newest weekly price. A throw anywhere in the block
      substitutes the fallback price; an empty array or an unparseable
      value leaves the price `null`. */
  function GasBlock(data: Try<seq<Try<Option<real>>>>): (price: Option<real>)
    ensures data.Threw? ==> price == Some(GAS_FALLBACK)
    ensures data.Value? && |data.value| == 0 ==> price.None?
    ensures data.Value? && |data.value| > 0 && data.value[0].Threw? ==> price == Some(GAS_FALLBACK)
    ensures data.Value? && |data.value| > 0 && data.value[0].Value? ==> price == data.value[0].value
  {
    match data
    case Threw => Some(GAS_FALLBACK)
    case Value(items) =>
      if |items| > 0 then
        match items[0]
        case Threw => Some(GAS_FALLBACK)
        case Value(p) => p
      else None
  }

  /** The Bitcoin block: the price, then the 24-hour change, read in that
      order from the same object. */
  function BitcoinBlock(usd: Try<real>, change24h: Try<real>): (r: Reading)
    ensures r.primary.Some? <==> usd.Value?
    ensures usd.Value? ==> r.primary.value == usd.value
    ensures r.secondary.Some? <==> usd.Value? && change24h.Value?
    ensures r.secondary.Some? ==> r.secondary.value == change24h.value
  {
    match usd
    case Threw => Reading(None, None)
    case Value(btc) =>
      match change24h
      case Threw => Reading(Some(btc), None)
      case Value(change) => Reading(Some(btc), Some(change))
  }

  /** The record handed to the widget's callback after all four blocks. */
  function FetchMarketData(rs: Responses): (m: MarketData)
    ensures rs.debtLatest.Value? ==> m.nationalDebt == rs.debtLatest.value
    ensures rs.debtLatest.Threw? ==> m.nationalDebt.None?
    ensures m.debtChange.Some? <==>
      (m.nationalDebt.Some? && rs.debtBaseline.Value? && rs.debtBaseline.value.Some?)
    ensures m.debtChange.Some? ==>
      m.debtChange.value == m.nationalDebt.value - rs.debtBaseline.value.value
    ensures m.sp500ChangePercent.Some? ==> m.sp500Price.Some?
    ensures m.gasChange.Some? <==> m.gasPrice.Some?
    ensures m.gasChange.Some? ==> m.gasChange.value == m.gasPrice.value - GAS_BASELINE
    ensures rs.gasData.Threw? ==> m.gasPrice == Some(GAS_FALLBACK)
    ensures m.bitcoinChangePercent.Some? ==> m.bitcoinPrice.Some?
  {
    var debt := DebtBlock(rs.debtLatest, rs.debtBaseline);
    var sp500 := Sp500Block(rs.sp500Observations);
    var gasPrice := GasBlock(rs.gasData);
    var btc := BitcoinBlock(rs.btcUsd, rs.btcChange24h);
    var debtChange :=
      if debt.primary.Some? && debt.secondary.Some? then Some(debt.primary.value - debt.secondary.value) else None;
    var gasChange := if gasPrice.Some? then Some(gasPrice.value - GAS_BASELINE) else None;
    MarketData(debt.primary, debtChange, sp500.primary, sp500.secondary,
               btc.primary, btc.secondary, gasPrice, gasChange)
  }

  /** A failed baseline request keeps the latest debt on screen but drops
      the change since the start of the term. */
  lemma BaselineFailureKeepsDebt(rs: Responses, d: real)
    requires rs.debtLatest == Value(Some(d)) && rs.debtBaseline.Threw?
    ensures FetchMarketData(rs).nationalDebt == Some(d)
    ensures FetchMarketData(rs).debtChange.None?
  {
  }

  /** With a parsed first observation the index is shown. Two parsed
      observations with a positive previous one give the percent change,
      and a change is shown only when the second observation parsed to a
      positive number. */
  lemma Sp500ChangeNeedsPositivePrevious(rs: Responses, cur: real, prev: real)
    requires rs.sp500Observations.Value?
    requires ParsedAt(rs.sp500Observations.value, 0, cur)
    ensures |rs.sp500Observations.value| >= 2 && ParsedAt(rs.sp500Observations.value, 1, prev) && prev > 0.0 ==>
      FetchMarketData(rs).sp500ChangePercent == Some((cur - prev) / prev * 100.0)
    ensures FetchMarketData(rs).sp500Price == Some(cur)
    ensures |rs.sp500Observations.value| < 2 ==> FetchMarketData(rs).sp500ChangePercent.None?
    ensures FetchMarketData(rs).sp500ChangePercent.Some? ==>
      (&& |rs.sp500Observations.value| >= 2
       && rs.sp500Observations.value[1].Value?
       && rs.sp500Observations.value[1].value.Some?
       && rs.sp500Observations.value[1].value.value > 0.0)
  {
  }
}
