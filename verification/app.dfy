/** The facade: the `searchParams` record the search form writes and the list and the export
    button read, and the whole user interface as a state machine over events. */
module App {
  import opened Common
  import opened Domain
  import opened Actions
  import opened JsText
  import BusinessSlice
  import Store
  import BusinessList
  import SearchForm

  datatype SearchParams = SearchParams(keyword: string, location: string)

  const InitialParams := SearchParams("", "")

  /** `handleSearchComplete`: both fields replaced together. */
  function HandleSearchComplete(p: SearchParams, keyword: string, location: string): (r: SearchParams)
    ensures r.keyword == keyword && r.location == location
  {
    SearchParams(keyword, location)
  }

  /** The keyword/location pair each child receives; `ExportButton` and `BusinessList` are
      given the same two fields of the one record. */
  datatype Props = Props(keyword: string, location: string)

  function ChildProps(p: SearchParams): (r: Props)
    ensures r.keyword == p.keyword && r.location == p.location
  {
    Props(p.keyword, p.location)
  }

  /** The initial parameters select the paginated listing, which the initial store renders as
      the empty message. */
  lemma InitialView()
    ensures !BusinessList.Scoped(InitialParams.keyword, InitialParams.location)
    ensures BusinessList.Render(BusinessSlice.Initial, ChildProps(InitialParams).keyword, ChildProps(InitialParams).location)
         == BusinessList.EmptyMessage
  {
  }

  // ---------------------------------------------------------------- user-interface state machine

  datatype AppState = AppState(params: SearchParams, form: SearchForm.Form)

  const InitialApp := AppState(InitialParams, SearchForm.Initial)

  datatype UiEvent =
    | EditKeyword(value: string)
    | EditLocation(value: string)
    | Submit(settled: SearchForm.Settlement)
    | CheckStatus(settled: SearchForm.Settlement)
    | HideStatus
    | Tick

  /** The effect of the `onSearchComplete` calls in a handler's effects, in order. */
  function Deliver(p: SearchParams, effects: seq<SearchForm.Effect>): (r: SearchParams)
    ensures (forall i | 0 <= i < |effects| :: !effects[i].SearchComplete?) ==> r == p
    ensures r == p || SearchForm.SearchComplete(r.keyword, r.location) in effects
    decreases |effects|
  {
    if |effects| == 0 then p
    else
      var prefix := effects[..|effects| - 1];
      var q := Deliver(p, prefix);
      assert forall i | 0 <= i < |prefix| :: prefix[i] == effects[i];
      assert forall e | e in prefix :: e in effects;
      match effects[|effects| - 1]
      case SearchComplete(k, l) => HandleSearchComplete(q, k, l)
      case _ => q
  }

  /** Both parameters empty, or both holding more than white space. */
  predicate Paired(p: SearchParams) {
    (p.keyword == "" && p.location == "") || (!AllTrimmable(p.keyword) && !AllTrimmable(p.location))
  }

  /** One user-interface event.  `App` always passes the callback, and only the form's handlers
      write the parameters. */
  function Step(app: AppState, e: UiEvent): (r: AppState)
    ensures r.params != app.params ==> e.Submit? || e.CheckStatus?
    ensures Paired(app.params) ==> Paired(r.params)
  {
    match e
    case EditKeyword(v) => app.(form := SearchForm.EditKeyword(app.form, v))
    case EditLocation(v) => app.(form := SearchForm.EditLocation(app.form, v))
    case Submit(st) =>
      var o := SearchForm.HandleSubmit(app.form, true, st);
      AppState(Deliver(app.params, o.effects), o.form)
    case CheckStatus(st) =>
      var o := SearchForm.HandleCheckStatus(app.form, true, st);
      AppState(Deliver(app.params, o.effects), o.form)
    case HideStatus => app.(form := SearchForm.HideStatus(app.form))
    case Tick => app
  }

  function RunUi(events: seq<UiEvent>): AppState
    decreases |events|
  {
    if |events| == 0 then InitialApp else Step(RunUi(events[..|events| - 1]), events[|events| - 1])
  }

  /** Whatever the user does, the parameters are both empty or both non-blank. */
  lemma {:induction false} ParamsAlwaysPaired(events: seq<UiEvent>)
    ensures Paired(RunUi(events).params)
    decreases |events|
  {
    if |events| > 0 {
      ParamsAlwaysPaired(events[..|events| - 1]);
    }
  }

  /** Hence the list is never in the half-set state: it is scoped, or it shows the listing with
      its pagination controls. */
  lemma ListNeverHalfScoped(events: seq<UiEvent>, s: BusinessSlice.State)
    ensures var p := RunUi(events).params;
      || BusinessList.Scoped(p.keyword, p.location)
      || (p.keyword == "" && p.location == ""
          && (BusinessList.PaginationControls(p.keyword, p.location, s.pagination).Some? <==> s.pagination.pages > 1))
    ensures var p := RunUi(events).params; var v := BusinessList.Render(s, p.keyword, p.location);
      v.Table? ==> (v.controls.Some? <==> !BusinessList.Scoped(p.keyword, p.location) && s.pagination.pages > 1)
  {
    ParamsAlwaysPaired(events);
  }

  /** A valid submit points the list, the export button and the poll at the typed values. */
  lemma SubmitSyncsChildren(app: AppState, st: SearchForm.Settlement)
    requires SearchForm.Valid(app.form)
    ensures var r := Step(app, Submit(st));
      && r.params == SearchParams(app.form.keyword, app.form.location)
      && ChildProps(r.params) == Props(app.form.keyword, app.form.location)
      && SearchForm.Tick(r.form) == Some(SearchForm.CheckScrapingStatus(r.params.keyword, r.params.location))
  {
    SearchForm.HandledFormPolls(app.form, true, st);
  }

  /** Editing an input after a search retargets the poll at once, while the list and the export
      button keep the submitted parameters. */
  lemma PollRetargetsWithoutList(app: AppState, value: string)
    requires SearchForm.PollingActive(app.form) && value != ""
    ensures var r := Step(app, EditKeyword(value));
      && r.params == app.params
      && SearchForm.Tick(r.form) == Some(SearchForm.CheckScrapingStatus(value, app.form.location))
  {
  }

  // ---------------------------------------------------------------- what the components dispatch

  /** The actions of the thunks some component dispatches: the list fetches and deletes, the
      export button exports, the form starts and checks scrapes. */
  predicate IssuedByComponents(a: Action) {
    || a.FetchBusinessesPending? || a.FetchBusinessesFulfilled? || a.FetchBusinessesRejected?
    || a.DeleteBusinessPending? || a.DeleteBusinessFulfilled? || a.DeleteBusinessRejected?
    || a.ExportBusinessesPending? || a.ExportBusinessesFulfilled? || a.ExportBusinessesRejected?
    || a.StartScrapingPending? || a.StartScrapingFulfilled? || a.StartScrapingRejected?
    || a.CheckScrapingStatusPending? || a.CheckScrapingStatusFulfilled? || a.CheckScrapingStatusRejected?
  }

  /** No component dispatches `searchBusinesses`, so the search results never leave `[]`... */
  lemma SearchResultsStayEmpty(acts: seq<Action>)
    requires forall i | 0 <= i < |acts| :: IssuedByComponents(acts[i])
    ensures Store.Run(Store.Initial, acts).business.searchResults == []
  {
    Store.RunProjects(Store.Initial, acts);
    BusinessSlice.RunWithoutSearchKeepsResults(BusinessSlice.Initial, acts);
  }

  /** ... and a scoped list never shows its table, whatever the scrape finds. */
  lemma ScopedListNeverShowsTable(acts: seq<Action>, p: SearchParams)
    requires forall i | 0 <= i < |acts| :: IssuedByComponents(acts[i])
    requires BusinessList.Scoped(p.keyword, p.location)
    ensures !BusinessList.Render(Store.Run(Store.Initial, acts).business, p.keyword, p.location).Table?
  {
    SearchResultsStayEmpty(acts);
  }
}
