/** The decision logic of the search form: input validation, the order of the handlers'
    effects, when the status poll runs, and what the status panel shows. */
module SearchForm {
  import opened Common
  import opened Domain
  import opened JsText
  import opened Actions
  import ScraperSlice

  /** The form's local state: both inputs, untrimmed, and whether the status panel is open. */
  datatype Form = Form(keyword: string, location: string, showStatus: bool)

  const Initial := Form("", "", false)

  /** The thunks the form dispatches, with their argument objects. */
  datatype Request = StartScraping(keyword: string, location: string) | CheckScrapingStatus(keyword: string, location: string)

  /** What a handler does, in order: the alert "Please enter both keyword and location", a
      dispatch, or a call of `onSearchComplete`. */
  datatype Effect = MissingInputAlert | Dispatch(request: Request) | SearchComplete(keyword: string, location: string)

  /** How the awaited thunk settled. */
  datatype Settlement = Fulfilled | Rejected(message: string)

  datatype Outcome = Outcome(form: Form, effects: seq<Effect>)

  /** `keyword.trim()` and `location.trim()` are both non-empty. */
  predicate Valid(f: Form) {
    !AllTrimmable(f.keyword) && !AllTrimmable(f.location)
  }

  lemma ValidIsTrimmedNonEmpty(f: Form)
    ensures Valid(f) <==> Trim(f.keyword) != "" && Trim(f.location) != ""
  {
  }

  function EditKeyword(f: Form, value: string): (r: Form)
    ensures r.keyword == value && r.location == f.location && r.showStatus == f.showStatus
  {
    f.(keyword := value)
  }

  function EditLocation(f: Form, value: string): (r: Form)
    ensures r.location == value && r.keyword == f.keyword && r.showStatus == f.showStatus
  {
    f.(location := value)
  }

  /** The body both handlers share: validate, await the dispatch, notify, open the panel.
      The settlement of the awaited thunk is not consulted. */
  function Handle(f: Form, request: Request, hasCallback: bool, settled: Settlement): (o: Outcome)
    requires request.keyword == f.keyword && request.location == f.location
    ensures !Valid(f) ==> o == Outcome(f, [MissingInputAlert])
    ensures Valid(f) ==> o.form == f.(showStatus := true)
    ensures Valid(f) ==> |o.effects| >= 1 && o.effects[0] == Dispatch(request)
    ensures Valid(f) ==> (hasCallback <==> SearchComplete(f.keyword, f.location) in o.effects)
    ensures Valid(f) ==> |o.effects| == (if hasCallback then 2 else 1)
    ensures forall e | e in o.effects && e.SearchComplete? :: !AllTrimmable(e.keyword) && !AllTrimmable(e.location)
  {
    if !Valid(f) then Outcome(f, [MissingInputAlert])
    else
      var notify := if hasCallback then [SearchComplete(f.keyword, f.location)] else [];
      Outcome(f.(showStatus := true), [Dispatch(request)] + notify)
  }

  function HandleSubmit(f: Form, hasCallback: bool, settled: Settlement): (o: Outcome)
    ensures !Valid(f) ==> o.form == f && o.effects == [MissingInputAlert]
    ensures Valid(f) ==> |o.effects| >= 1 && o.effects[0] == Dispatch(StartScraping(f.keyword, f.location))
    ensures Valid(f) ==> o.form.showStatus
  {
    Handle(f, StartScraping(f.keyword, f.location), hasCallback, settled)
  }

  function HandleCheckStatus(f: Form, hasCallback: bool, settled: Settlement): (o: Outcome)
    ensures !Valid(f) ==> o.form == f && o.effects == [MissingInputAlert]
    ensures Valid(f) ==> |o.effects| >= 1 && o.effects[0] == Dispatch(CheckScrapingStatus(f.keyword, f.location))
    ensures Valid(f) ==> o.form.showStatus
  {
    Handle(f, CheckScrapingStatus(f.keyword, f.location), hasCallback, settled)
  }

  /** The callback and the panel follow whether the thunk fulfilled or was rejected. */
  lemma HandlersIgnoreSettlement(f: Form, hasCallback: bool, a: Settlement, b: Settlement)
    ensures HandleSubmit(f, hasCallback, a) == HandleSubmit(f, hasCallback, b)
    ensures HandleCheckStatus(f, hasCallback, a) == HandleCheckStatus(f, hasCallback, b)
  {
  }

  /** The callback receives the values as typed, not trimmed. */
  lemma SubmitPassesUntrimmed(settled: Settlement)
    ensures HandleSubmit(Form(" coffee shop ", "Austin", false), true, settled).effects
         == [Dispatch(StartScraping(" coffee shop ", "Austin")), SearchComplete(" coffee shop ", "Austin")]
  {
    assert !IsTrimmable(" coffee shop "[1]);
    assert !IsTrimmable("Austin"[0]);
  }

  // ---------------------------------------------------------------- polling

  /** The interval runs while the panel is open and both untrimmed inputs are non-empty. */
  predicate PollingActive(f: Form) {
    f.showStatus && f.keyword != "" && f.location != ""
  }

  /** What one interval tick dispatches. */
  function Tick(f: Form): (r: Option<Request>)
    ensures r.Some? <==> PollingActive(f)
    ensures r.Some? ==> r.value == CheckScrapingStatus(f.keyword, f.location)
  {
    if PollingActive(f) then Some(CheckScrapingStatus(f.keyword, f.location)) else None
  }

  /** "Hide Status" closes the panel and so stops the interval. */
  function HideStatus(f: Form): (r: Form)
    ensures !r.showStatus && !PollingActive(r) && Tick(r).None?
    ensures r.keyword == f.keyword && r.location == f.location
  {
    f.(showStatus := false)
  }

  /** A valid submit or status check starts the poll for the same parameters. */
  lemma HandledFormPolls(f: Form, hasCallback: bool, settled: Settlement)
    requires Valid(f)
    ensures Tick(HandleSubmit(f, hasCallback, settled).form) == Some(CheckScrapingStatus(f.keyword, f.location))
    ensures Tick(HandleCheckStatus(f, hasCallback, settled).form) == Some(CheckScrapingStatus(f.keyword, f.location))
  {
  }

  /** Polling tests the untrimmed inputs: white space the handlers refuse keeps the poll running. */
  lemma WhitespaceKeepsPolling()
    ensures PollingActive(Form(" ", "Austin", true)) && !Valid(Form(" ", "Austin", true))
  {
    assert AllTrimmable(" ");
  }

  // ---------------------------------------------------------------- status panel

  /** The panel needs both the open flag and a stored snapshot. */
  predicate StatusPanelShown(f: Form, s: ScraperSlice.State) {
    f.showStatus && s.scrapingStatus.Some?
  }

  /** The progress block inside the panel needs a `progress` record in the snapshot. */
  predicate ProgressShown(snapshot: JobSnapshot) {
    snapshot.progress.Some?
  }

  /** After a status response, the panel shows exactly when it is open and the response carried
      a snapshot, and the progress block exactly when that snapshot carries progress; what the
      response stored is what the panel shows, whatever job it describes. */
  lemma StatusResponseShown(f: Form, s: ScraperSlice.State, d: Option<JobSnapshot>)
    ensures var r := ScraperSlice.Reduce(s, CheckScrapingStatusFulfilled(d));
      && (StatusPanelShown(f, r) <==> f.showStatus && d.Some?)
      && (StatusPanelShown(f, r) ==> r.scrapingStatus.value == d.value
                                     && (ProgressShown(r.scrapingStatus.value) <==> d.value.progress.Some?))
  {
  }

  /** Clearing the stored status or hiding the panel each hide it. */
  lemma StatusPanelHides(f: Form, s: ScraperSlice.State)
    ensures !StatusPanelShown(f, ScraperSlice.Reduce(s, ClearScrapingStatus))
    ensures !StatusPanelShown(HideStatus(f), s)
  {
  }

  /** The inputs and both buttons are disabled while the scraper slice is loading. */
  predicate ControlsDisabled(s: ScraperSlice.State) {
    s.isLoading
  }

  /** Every poll tick disables the form until the next settlement of any scraper thunk, its own
      response or another. */
  lemma PollTickDisablesForm(s: ScraperSlice.State, d: Option<JobSnapshot>)
    ensures ControlsDisabled(ScraperSlice.Reduce(s, CheckScrapingStatusPending))
    ensures !ControlsDisabled(ScraperSlice.Reduce(ScraperSlice.Reduce(s, CheckScrapingStatusPending), CheckScrapingStatusFulfilled(d)))
  {
  }

  // ---------------------------------------------------------------- progress percentage

  lemma MulMonotone(a: int, b: int, c: int)
    requires a <= b && c > 0
    ensures a * c <= b * c
  {
    assert b * c - a * c == (b - a) * c;
  }

  /** `Math.round(processed / total * 100)` for `total > 0`, in exact arithmetic: the nearest
      integer, halves rounded up. */
  function RoundedPercent(processed: int, total: int): (pct: int)
    requires total > 0
    ensures (2 * pct - 1) * total <= 200 * processed < (2 * pct + 1) * total
  {
    var n := 200 * processed + total;
    var d := 2 * total;
    var q := n / d;
    assert d * q <= n < d * q + d;
    assert (2 * q - 1) * total == d * q - total;
    assert (2 * q + 1) * total == d * q + total;
    q
  }

  /** When `0 <= processed <= total`, the nearest integer to the percentage lies in 0..100. */
  lemma RoundedPercentInRange(processed: int, total: int, pct: int)
    requires 0 <= processed <= total && total > 0
    requires (2 * pct - 1) * total <= 200 * processed < (2 * pct + 1) * total
    ensures 0 <= pct <= 100
  {
    if pct < 0 {
      MulMonotone(2 * pct + 1, -1, total);
    }
    if pct > 100 {
      MulMonotone(201, 2 * pct - 1, total);
    }
  }

  /** The percentage shown, with the zero-total guard. */
  function Percentage(p: Progress): (pct: int)
    ensures p.total <= 0 ==> pct == 0
    ensures p.total > 0 ==> (2 * pct - 1) * p.total <= 200 * p.processed < (2 * pct + 1) * p.total
    ensures 0 <= p.processed <= p.total ==> 0 <= pct <= 100
  {
    if p.total > 0 then
      var pct := RoundedPercent(p.processed, p.total);
      if 0 <= p.processed <= p.total then
        RoundedPercentInRange(p.processed, p.total, pct);
        pct
      else pct
    else 0
  }
}
