/** The widget's text helpers (`WidgetUtils.format*` and `isPositive`).
    Only the decisions are modelled: what a missing number shows, which
    number is shown at which scale and precision, and when a "+" leads.
    The digits themselves are left to a `Number` piece. */
module WidgetFormat {
  import opened Wrappers
  import opened Arith

  /** One trillion, the debt's display unit. */
  const TRILLION: real := 1_000_000_000_000.0

  /** A piece of rendered text: literal characters, a number printed with
      `String.format("%.<decimals>f")`, or a whole number printed with
      US digit grouping by `NumberFormat`. */
  datatype Piece = Lit(text: string) | Number(value: real, decimals: nat) | Grouped(whole: int)

  type Text = seq<Piece>

  /** What a missing value shows. */
  const NoValue: Text := [Lit("---")]

  /** What a missing change shows: nothing. */
  const NoChange: Text := []

  /** The sign prefix of a change: "+" for zero and above, nothing below
      (a negative number brings its own "-"). */
  function SignPrefix(x: real): (p: string)
    ensures p == "+" <==> x >= 0.0
    ensures p == "" <==> x < 0.0
  {
    if x >= 0.0 then "+" else ""
  }

  /** The text starts with a "+". */
  predicate ShowsPlus(t: Text) {
    |t| > 0 && t[0] == Lit("+")
  }

  /** The first number piece of the text, if any: what a reader of the
      text learns about the value. */
  function ShownNumber(t: Text): (n: Option<Piece>)
    ensures n.Some? ==> n.value in t && !n.value.Lit?
    ensures n.None? ==> forall i :: 0 <= i < |t| ==> t[i].Lit?
  {
    if |t| == 0 then None
    else if t[0].Lit? then ShownNumber(t[1..])
    else Some(t[0])
  }

  /** Leading literal pieces do not change which number a text shows. */
  lemma {:induction false} ShownAfterLiterals(lits: Text, rest: Text)
    requires forall i :: 0 <= i < |lits| ==> lits[i].Lit?
    ensures ShownNumber(lits + rest) == ShownNumber(rest)
    decreases |lits|
  {
    if |lits| > 0 {
      assert (lits + rest)[1..] == lits[1..] + rest;
      ShownAfterLiterals(lits[1..], rest);
    } else {
      assert lits + rest == rest;
    }
  }

  /** "$<debt in trillions, one decimal>T". */
  function FormatDebt(debt: Option<real>): (t: Text)
    ensures t == NoValue <==> debt.None?
    ensures debt.Some? ==> ShownNumber(t) == Some(Number(debt.value / TRILLION, 1))
    ensures !ShowsPlus(t)
  {
    match debt
    case None => [Lit("---")]
    case Some(d) => [Lit("$"), Number(d / TRILLION, 1), Lit("T")]
  }

  /** "<+>$<change in trillions, one decimal>T since Jan 20". */
  function FormatDebtChange(change: Option<real>): (t: Text)
    ensures t == NoChange <==> change.None?
    ensures ShowsPlus(t) <==> change.Some? && change.value >= 0.0
    ensures change.Some? ==> ShownNumber(t) == Some(Number(change.value / TRILLION, 1))
    ensures change.Some? ==> t[|t| - 1] == Lit("T since Jan 20")
  {
    match change
    case None => []
    case Some(c) =>
      var trillions := c / TRILLION;
      ShownAfterLiterals([Lit(SignPrefix(trillions)), Lit("$")], [Number(trillions, 1), Lit("T since Jan 20")]);
      [Lit(SignPrefix(trillions)), Lit("$"), Number(trillions, 1), Lit("T since Jan 20")]
  }

  /** "<+>$<change in trillions, one decimal>T". */
  function FormatDebtChangeShort(change: Option<real>): (t: Text)
    ensures t == NoChange <==> change.None?
    ensures ShowsPlus(t) <==> change.Some? && change.value >= 0.0
    ensures change.Some? ==> ShownNumber(t) == Some(Number(change.value / TRILLION, 1))
    ensures change.Some? ==> t[|t| - 1] == Lit("T")
  {
    match change
    case None => []
    case Some(c) =>
      var trillions := c / TRILLION;
      ShownAfterLiterals([Lit(SignPrefix(trillions)), Lit("$")], [Number(trillions, 1), Lit("T")]);
      [Lit(SignPrefix(trillions)), Lit("$"), Number(trillions, 1), Lit("T")]
  }

  /** The index level as a grouped whole number, its fraction dropped by
      `toLong`. */
  function FormatSP500(price: Option<real>): (t: Text)
    ensures t == NoValue <==> price.None?
    ensures price.Some? ==> ShownNumber(t) == Some(Grouped(TruncToInt(price.value)))
    ensures !ShowsPlus(t)
  {
    match price
    case None => [Lit("---")]
    case Some(p) => [Grouped(TruncToInt(p))]
  }

  /** "$<price, two decimals>". */
  function FormatPrice(price: Option<real>): (t: Text)
    ensures t == NoValue <==> price.None?
    ensures price.Some? ==> ShownNumber(t) == Some(Number(price.value, 2))
    ensures !ShowsPlus(t)
  {
    match price
    case None => [Lit("---")]
    case Some(p) => [Lit("$"), Number(p, 2)]
  }

  /** "$<price per gallon, two decimals>". */
  function FormatGasPrice(price: Option<real>): (t: Text)
    ensures t == NoValue <==> price.None?
    ensures price.Some? ==> ShownNumber(t) == Some(Number(price.value, 2))
    ensures !ShowsPlus(t)
  {
    match price
    case None => [Lit("---")]
    case Some(p) => [Lit("$"), Number(p, 2)]
  }

  /** "<+>$<change, two decimals>". */
  function FormatGasChange(change: Option<real>): (t: Text)
    ensures t == NoChange <==> change.None?
    ensures ShowsPlus(t) <==> change.Some? && change.value >= 0.0
    ensures change.Some? ==> ShownNumber(t) == Some(Number(change.value, 2))
  {
    match change
    case None => []
    case Some(c) =>
      ShownAfterLiterals([Lit(SignPrefix(c)), Lit("$")], [Number(c, 2)]);
      [Lit(SignPrefix(c)), Lit("$"), Number(c, 2)]
  }

  /** "$<price as a grouped whole number>". */
  function FormatBtcPrice(price: Option<real>): (t: Text)
    ensures t == NoValue <==> price.None?
    ensures price.Some? ==> ShownNumber(t) == Some(Grouped(TruncToInt(price.value)))
    ensures !ShowsPlus(t)
  {
    match price
    case None => [Lit("---")]
    case Some(p) => [Lit("$"), Grouped(TruncToInt(p))]
  }

  /** "$<price in thousands, no decimals>K". */
  function FormatBtcPriceShort(price: Option<real>): (t: Text)
    ensures t == NoValue <==> price.None?
    ensures price.Some? ==> ShownNumber(t) == Some(Number(price.value / 1000.0, 0))
    ensures !ShowsPlus(t)
  {
    match price
    case None => [Lit("---")]
    case Some(p) => [Lit("$"), Number(p / 1000.0, 0), Lit("K")]
  }

  /** "<+><percent, two decimals>% <suffix>"; the widgets pass "today" by
      default. */
  function FormatPercent(percent: Option<real>, suffix: string): (t: Text)
    ensures t == NoChange <==> percent.None?
    ensures ShowsPlus(t) <==> percent.Some? && percent.value >= 0.0
    ensures percent.Some? ==> ShownNumber(t) == Some(Number(percent.value, 2))
    ensures percent.Some? ==> t[|t| - 1] == Lit("% " + suffix)
  {
    match percent
    case None => []
    case Some(p) => [Lit(SignPrefix(p)), Number(p, 2), Lit("% " + suffix)]
  }

  /** "<+><percent, one decimal>%". */
  function FormatPercentShort(percent: Option<real>): (t: Text)
    ensures t == NoChange <==> percent.None?
    ensures ShowsPlus(t) <==> percent.Some? && percent.value >= 0.0
    ensures percent.Some? ==> ShownNumber(t) == Some(Number(percent.value, 1))
    ensures percent.Some? ==> t[|t| - 1] == Lit("%")
  {
    match percent
    case None => []
    case Some(p) => [Lit(SignPrefix(p)), Number(p, 1), Lit("%")]
  }

  /** "<+><percent, one decimal>% 24h". */
  function FormatBtcPercent(percent: Option<real>): (t: Text)
    ensures t == NoChange <==> percent.None?
    ensures ShowsPlus(t) <==> percent.Some? && percent.value >= 0.0
    ensures percent.Some? ==> ShownNumber(t) == Some(Number(percent.value, 1))
    ensures percent.Some? ==> t[|t| - 1] == Lit("% 24h")
  {
    match percent
    case None => []
    case Some(p) => [Lit(SignPrefix(p)), Number(p, 1), Lit("% 24h")]
  }

  /** Whether a value counts as good news: a missing value reads as zero,
      and zero counts as positive. */
  function IsPositive(value: Option<real>): (b: bool)
    ensures value.None? ==> b
    ensures value.Some? ==> (b <==> value.value >= 0.0)
  {
    value.GetOr(0.0) >= 0.0
  }

  /** The "+" of every change helper and the colour decision of
      `IsPositive` agree on every present number. */
  lemma PlusMatchesPositive(x: real)
    ensures ShowsPlus(FormatGasChange(Some(x))) == IsPositive(Some(x))
    ensures ShowsPlus(FormatPercent(Some(x), "today")) == IsPositive(Some(x))
    ensures ShowsPlus(FormatDebtChange(Some(x))) == IsPositive(Some(x))
  {
  }
}
