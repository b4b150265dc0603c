/** The dashboard's state (src/App.tsx): the initial state, the two
    updates of `loadData`, and `handleQuoteIndexChange`. */
module App {
  import opened Wrappers
  import opened Api

  /** An approval poll. Its fetcher is imported by the page but defined in
      none of its modules, so only its outcome is modelled. */
  datatype ApprovalData = ApprovalData(
    approve: real, disapprove: real, monthChange: Option<real>, pollDate: string, pollster: string)

  datatype DashboardState = DashboardState(
    debt: Option<DebtData>,
    eoCount: Option<int>,
    quotes: seq<QuoteData>,
    currentQuoteIndex: int,
    gasPrice: Option<GasData>,
    approvalRating: Option<ApprovalData>,
    golfDays: int,
    truthPostsCount: Option<int>,
    loading: bool,
    error: Option<string>)

  /** The golf-day count, fixed in the page. */
  const GOLF_DAYS: int := 89

  /** The number of quotes each load asks for. */
  const QUOTES_PER_LOAD: int := 7

  /** The banner shown when a load fails. */
  const LOAD_ERROR: string := "Failed to load some data feeds. Please check your connection."

  /** The state before the first load completes. */
  function InitialState(): (s: DashboardState)
    ensures s.debt.None? && s.eoCount.None? && s.gasPrice.None?
    ensures s.approvalRating.None? && s.truthPostsCount.None?
    ensures s.quotes == [] && s.currentQuoteIndex == 0
    ensures s.golfDays == GOLF_DAYS && s.loading && s.error.None?
  {
    DashboardState(None, None, [], 0, None, None, 89, None, true, None)
  }

  /** The six results of one load, in the order `Promise.all` lists them. */
  datatype Feeds = Feeds(
    debt: DebtData, eoCount: int, quotes: seq<QuoteData>,
    gas: GasData, approval: ApprovalData, truthPostsCount: int)

  /** `Promise.all` over the six fetches: it resolves only when every one
      does, and rejects as soon as any one rejects. */
  function AwaitAll(
    debt: Settled<DebtData>, eoCount: Settled<int>, quotes: Settled<seq<QuoteData>>,
    gas: Settled<GasData>, approval: Settled<ApprovalData>, truth: Settled<int>): (r: Settled<Feeds>)
    ensures r.Resolved? <==>
      (debt.Resolved? && eoCount.Resolved? && quotes.Resolved?
       && gas.Resolved? && approval.Resolved? && truth.Resolved?)
    ensures r.Resolved? ==>
      (r.value.debt == debt.value && r.value.eoCount == eoCount.value
       && r.value.quotes == quotes.value && r.value.gas == gas.value
       && r.value.approval == approval.value && r.value.truthPostsCount == truth.value)
  {
    if debt.Rejected? || eoCount.Rejected? || quotes.Rejected? || gas.Rejected?
       || approval.Rejected? || truth.Rejected? then Rejected
    else Resolved(Feeds(debt.value, eoCount.value, quotes.value, gas.value, approval.value, truth.value))
  }

  /** Everything one load's requests come back with. The approval and
      post-count fetchers are outside the model, so their settled promises
      are given directly; `quoteReply(i)` is the i-th quote request. */
  datatype CycleInputs = CycleInputs(
    debtLatest: Fetch<DebtRow>,
    debtBaseline: Fetch<DebtRow>,
    eoCount: Fetch<int>,
    quoteReply: nat -> QuoteReply,
    gasPrice: Fetch<real>,
    approval: Settled<ApprovalData>,
    truthPostsCount: Settled<int>)

  /** The awaited results of one load. The count, quote and gas fetchers
      catch their own errors, so only the debt, approval and post-count
      fetches can fail the cycle. */
  function LoadFeeds(inputs: CycleInputs): (r: Settled<Feeds>)
    ensures r.Rejected? <==>
      (inputs.debtLatest.Failed? || inputs.debtBaseline.Failed?
       || inputs.approval.Rejected? || inputs.truthPostsCount.Rejected?)
    ensures r.Resolved? ==> |r.value.quotes| == QUOTES_PER_LOAD
    ensures r.Resolved? ==>
      (r.value.gas == FetchGasPrice(inputs.gasPrice)
       && r.value.eoCount == FetchExecutiveOrdersCount(inputs.eoCount))
  {
    AwaitAll(
      FetchNationalDebt(inputs.debtLatest, inputs.debtBaseline),
      Resolved(FetchExecutiveOrdersCount(inputs.eoCount)),
      Resolved(FetchMultipleQuotes(7, inputs.quoteReply)),
      Resolved(FetchGasPrice(inputs.gasPrice)),
      inputs.approval,
      inputs.truthPostsCount)
  }

  /** What changes the state: the start of a load, its end, and the
      carousel asking for another quote. */
  datatype Event =
    | LoadStarted
    | LoadFinished(inputs: CycleInputs)
    | QuoteIndexChanged(index: int)

  /** The six fetched fields agree. */
  predicate SameData(a: DashboardState, b: DashboardState) {
    && a.debt == b.debt && a.eoCount == b.eoCount && a.quotes == b.quotes
    && a.gasPrice == b.gasPrice && a.approvalRating == b.approvalRating
    && a.truthPostsCount == b.truthPostsCount
  }

  /** The fields no load touches agree. */
  predicate SameView(a: DashboardState, b: DashboardState) {
    a.currentQuoteIndex == b.currentQuoteIndex && a.golfDays == b.golfDays
  }

  /** One `setState` of the page. */
  function Step(s: DashboardState, e: Event): (s': DashboardState)
    ensures e.LoadStarted? ==> SameData(s, s') && SameView(s, s') && s'.loading && s'.error.None?
    ensures e.LoadFinished? && LoadFeeds(e.inputs).Resolved? ==>
      var f := LoadFeeds(e.inputs).value;
      && s'.debt == Some(f.debt) && s'.eoCount == Some(f.eoCount) && s'.quotes == f.quotes
      && s'.gasPrice == Some(f.gas) && s'.approvalRating == Some(f.approval)
      && s'.truthPostsCount == Some(f.truthPostsCount)
      && SameView(s, s') && !s'.loading && s'.error.None?
    ensures e.LoadFinished? && LoadFeeds(e.inputs).Rejected? ==>
      SameData(s, s') && SameView(s, s') && !s'.loading && s'.error == Some(LOAD_ERROR)
    ensures e.QuoteIndexChanged? ==>
      s' == s.(currentQuoteIndex := e.index) && SameData(s, s') && s'.golfDays == s.golfDays
  {
    match e
    case LoadStarted => s.(loading := true, error := None)
    case LoadFinished(inputs) =>
      (match LoadFeeds(inputs)
       case Resolved(f) =>
         s.(debt := Some(f.debt), eoCount := Some(f.eoCount), quotes := f.quotes,
            gasPrice := Some(f.gas), approvalRating := Some(f.approval),
            truthPostsCount := Some(f.truthPostsCount), loading := false, error := None)
       case Rejected => s.(loading := false, error := Some(LOAD_ERROR)))
    case QuoteIndexChanged(index) => s.(currentQuoteIndex := index)
  }

  /** `loadData` run to completion without anything in between. */
  function LoadData(s: DashboardState, inputs: CycleInputs): (s': DashboardState)
    ensures !s'.loading && SameView(s, s')
    ensures LoadFeeds(inputs).Rejected? ==> SameData(s, s') && s'.error == Some(LOAD_ERROR)
    ensures LoadFeeds(inputs).Resolved? ==> s'.error.None? && |s'.quotes| == QUOTES_PER_LOAD
  {
    Step(Step(s, LoadStarted), LoadFinished(inputs))
  }

  /** The state after a sequence of events from the initial one. */
  function Run(events: seq<Event>): DashboardState
    decreases |events|
  {
    if |events| == 0 then InitialState() else Step(Run(events[..|events| - 1]), events[|events| - 1])
  }

  /** What holds in every state the page can reach. */
  predicate Invariant(s: DashboardState) {
    && s.golfDays == GOLF_DAYS
    && (s.error.Some? ==> s.error == Some(LOAD_ERROR) && !s.loading)
    && (s.quotes == [] || |s.quotes| == QUOTES_PER_LOAD)
    && (s.debt.Some? <==> s.eoCount.Some?)
    && (s.debt.Some? <==> s.gasPrice.Some?)
    && (s.debt.Some? <==> s.approvalRating.Some?)
    && (s.debt.Some? <==> s.truthPostsCount.Some?)
    && (s.debt.Some? <==> s.quotes != [])
  }

  /** The golf-day count stays 89, an error banner is the fixed message
      and never shows while loading, the quote list is empty or holds the
      seven of the last successful load, and the six fetched fields are
      all set (some load succeeded) or all unset (none has). */
  lemma {:induction false} ReachableStatesKeepInvariant(events: seq<Event>)
    ensures Invariant(Run(events))
    decreases |events|
  {
    if |events| > 0 {
      ReachableStatesKeepInvariant(events[..|events| - 1]);
      StepKeepsInvariant(Run(events[..|events| - 1]), events[|events| - 1]);
    }
  }

  /** Every event of the page keeps the invariant. */
  lemma StepKeepsInvariant(s: DashboardState, e: Event)
    requires Invariant(s)
    ensures Invariant(Step(s, e))
  {
    match e
    case LoadStarted =>
    case LoadFinished(inputs) =>
    case QuoteIndexChanged(index) =>
  }
}
