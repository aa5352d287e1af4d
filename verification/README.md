# Map Scraper client state machine, in Dafny

This project models the client side of the Map Scraper front end. The front end is a React/Redux
browser client. It starts a Google Maps scrape job on a remote service, polls the job's status,
shows either the paginated business listing or the search-scoped results, deletes records and
requests Excel exports. The model covers:

- the two Redux slices (`business` and `scraper`) as pure reducers over one action type. Each
  async thunk is three independent actions: pending, fulfilled with its payload, and rejected
  with `error.message`.
- the folds of those reducers over arbitrary action sequences. Network responses may arrive in
  any order, so every order is a sequence.
- the root store as the pair of slice states.
- the decision logic inside the three components: the list, the search form and the export
  button.
- the `searchParams` facade of `App`, as a state machine over user-interface events.

The model follows the code, including behaviour a reader might not expect. Lemmas exhibit it:

- A status response is stored whatever job it describes. There is no stale-response guard and
  no sequence number, so the last status check to be fulfilled wins; a later failed check leaves that snapshot displayed (`ScraperSlice.StaleStatusOverwritesNewer`).
- The business slice has one `isLoading` and one `error` for fetch, search, export and history.
  A failed listing fetch therefore shows as "Export Error", and a failed export replaces the list
  with its error view.
- Exports carry no request correlation: the last export to be fulfilled is the one displayed, and a later failed export leaves it displayed beside the new error (`ExportButton.FailedExportKeepsEarlierResult`).
- With both search parameters set, the list fetches through `fetchBusinesses`, which writes
  `businesses`, but it displays `searchResults`. No component dispatches `searchBusinesses`, so
  the scoped list never shows a table (`App.ScopedListNeverShowsTable`).
- The scraper's single loading flag drops when any scraper thunk settles, even while another is
  still pending.

There is no stale-response guard keyed by keyword and location, no sequence number on status
ticks, no separate export loading flag and no job lifecycle (idle, running, completed, failed):
the model adds none of them. The slice does define a scoped load through the search endpoint,
`searchBusinesses` (`src/features/business/businessSlice.js:19-27`, reduced at lines 103-115),
and the model reduces its three actions, but no component dispatches it.

The initial states are the constants `BusinessSlice.Initial`, `ScraperSlice.Initial`,
`SearchForm.Initial` and `App.InitialParams`. They hold the source's values: empty collections,
pagination `{1, 50, 0, 0}`, not loading, every nullable field `None`, and empty inputs.

Modules: `Common` (option type, JavaScript truthiness, last-writer folds), `JsText`
(`String.prototype.trim`), `Domain` (records), `Actions`, `BusinessSlice`, `ScraperSlice`,
`Store`, `BusinessList`, `SearchForm`, `ExportButton`, `App`.

## Model

| member | source | states |
|---|---|---|
| BusinessSlice.FetchQuery | src/features/business/businessSlice.js:9-12 | `page` (default 1) and `limit` (default 50) always come first, in that order; `keyword`, then `location`, are appended only when truthy |
| BusinessSlice.ExportRequestBody | src/features/business/businessSlice.js:31-37 | the posted body carries keyword, location and hasWebsite unchanged; `exportType` defaults to `'search'` only when absent |
| BusinessSlice.RemoveId | src/features/business/businessSlice.js:132-137 | the filtered list holds exactly the records whose `_id` differs from the deleted id |
| BusinessSlice.RemoveIdDistributes | src/features/business/businessSlice.js:132-137 | the filter works record by record (distributes over concatenation), so kept records keep their relative order |
| BusinessSlice.RemoveIdAbsent | src/features/business/businessSlice.js:132-137 | deleting an id no record carries leaves the list as it is |
| BusinessSlice.RemoveIdIdempotent | src/features/business/businessSlice.js:132-137 | filtering the same id twice equals filtering it once |
| BusinessSlice.Reduce | src/features/business/businessSlice.js:74-151 | frame conditions of the business reducer: which actions may change each field; every start raises and every settlement lowers `isLoading`; every rejection stores its message; scraper actions change nothing |
| BusinessSlice.FetchFulfilledReplacesListing | src/features/business/businessSlice.js:92-97 | a fulfilled fetch replaces `businesses` and `pagination` wholesale, clears loading and error, and leaves search results, history and export result unchanged |
| BusinessSlice.SearchFulfilledReplacesOnlyResults | src/features/business/businessSlice.js:107-111 | a fulfilled search replaces only `searchResults`; the listing and pagination are unchanged |
| BusinessSlice.RejectionKeepsData | src/features/business/businessSlice.js:98-150 | each rejected case (fetch, search, export, history) lowers loading, stores the message and changes nothing else |
| BusinessSlice.PendingCases | src/features/business/businessSlice.js:88-142 | pending fetch, search and export raise loading and clear the error; pending history raises loading and keeps the error |
| BusinessSlice.FailedDeleteChangesNothing | src/features/business/businessSlice.js:130-138 | a delete that is pending or rejected leaves the state unchanged (there are no such cases) |
| BusinessSlice.DeleteRemovesFromBoth | src/features/business/businessSlice.js:131-138 | a confirmed delete removes the id from both collections and leaves every other field unchanged |
| BusinessSlice.DeleteIdempotent | src/features/business/businessSlice.js:131-138 | applying the same delete twice equals applying it once |
| BusinessSlice.SynchronousReducers | src/features/business/businessSlice.js:74-84 | `setPage` changes only `pagination.page`; `clearError` and `clearExportResult` each reset exactly one field |
| BusinessSlice.RunWithoutSearchKeepsResults | src/features/business/businessSlice.js:107-137 | in any interleaving with no fulfilled search, the search results are the starting ones minus every deleted id |
| BusinessSlice.RunWithoutFetchKeepsListing | src/features/business/businessSlice.js:92-137 | in any interleaving with no fulfilled fetch, the listing is the starting one minus every deleted id |
| BusinessSlice.RunErrorIsLastWrite | src/features/business/businessSlice.js:88-150 | after any action sequence, the shared `error` is what the last writer stored, whichever thunk it belongs to |
| BusinessSlice.RunExportResultIsLastWrite | src/features/business/businessSlice.js:78-124 | after any action sequence, the export result is the last one to be fulfilled, or `None` after a later clear; a rejected export writes nothing, so an earlier result stays |
| BusinessSlice.RunLoadingIsLastWrite | src/features/business/businessSlice.js:88-150 | after any action sequence, `isLoading` is decided by the last start or settlement of any business thunk |
| BusinessSlice.EarlierExportFulfilledLastWins | src/features/business/businessSlice.js:121-124 | with two exports in flight, the one issued first but fulfilled last is the one displayed |
| ScraperSlice.Reduce | src/features/scraper/scraperSlice.js:46-94 | frame conditions of the scraper reducer: a status response overwrites `scrapingStatus` unconditionally; only starts and settlements move `isLoading`; rejections store their message; business actions change nothing |
| ScraperSlice.StartScrapingCases | src/features/scraper/scraperSlice.js:57-65 | a start raises loading and clears the error; its success stores `data` in `lastScrapedData`, clears the error and leaves the status untouched |
| ScraperSlice.StatusCheckKeepsError | src/features/scraper/scraperSlice.js:71-77 | a status check keeps an existing error both when it starts and when it succeeds |
| ScraperSlice.RejectionKeepsJobData | src/features/scraper/scraperSlice.js:66-92 | every rejection lowers loading, stores the message and leaves status, last data and test result unchanged |
| ScraperSlice.ClearsResetOneField | src/features/scraper/scraperSlice.js:47-52 | `clearScrapingStatus` and `clearError` each reset exactly one field |
| ScraperSlice.RunStatusIsLastWrite | src/features/scraper/scraperSlice.js:74-77 | after any action sequence, the stored status is the last status check to be fulfilled (or `None` after a later clear); a rejected check writes nothing, so an earlier snapshot stays |
| ScraperSlice.RunLoadingIsLastWrite | src/features/scraper/scraperSlice.js:57-92 | after any action sequence, the single loading flag is decided by the last start or settlement of any scraper thunk |
| ScraperSlice.StaleStatusOverwritesNewer | src/features/scraper/scraperSlice.js:74-77 | a late response for a different keyword/location replaces the snapshot of the current search |
| ScraperSlice.SharedLoadingFlag | src/features/scraper/scraperSlice.js:57-77 | a settled status check lowers loading while the scrape start it raced is still pending |
| Store.Reduce | src/app/store.js:5-10 | business actions leave the scraper state alone and scraper actions leave the business state alone |
| Store.RunProjects | src/app/store.js:5-10 | running the store is running each slice on the same action sequence |
| BusinessList.DisplayData | src/components/BusinessList.js:11 | the list displays `searchResults` when keyword and location are both non-empty (`Scoped`), otherwise `businesses` |
| BusinessList.FetchOnChange | src/components/BusinessList.js:13-18 | scoped parameters request page 1, limit 50, keyword and location; otherwise the current page with limit 50 and nothing else |
| BusinessList.ScopedFetchLeavesDisplay | src/components/BusinessList.js:11-15 | the response to the scoped fetch never changes what the scoped list displays |
| BusinessList.PageChange | src/components/BusinessList.js:27-29 | a page button requests exactly that page with the default limit |
| BusinessList.HasWebsiteIsSchemePrefix | src/components/BusinessList.js:129 | the regular-expression test `HasWebsite` gives "Yes" exactly when the website starts with `http://` or `https://`, ignoring ASCII case |
| BusinessList.LinkWithoutWebsite | src/components/BusinessList.js:104-129 | a website without a scheme still gets the "Visit Website" link but is counted "No" |
| BusinessList.OrNotAvailable | src/components/BusinessList.js:122-153 | the phone and category cells show the value when truthy, otherwise "N/A", and are never blank |
| BusinessList.RowOf | src/components/BusinessList.js:98-163 | a row keeps the record's id, name and address; the link appears iff the website is truthy; the Website cell is "Yes" iff the URL test passes; the phone and category cells are `OrNotAvailable` of the record's fields ("N/A" when falsy) |
| BusinessList.Rows | src/components/BusinessList.js:98 | one row per displayed record, in display order |
| BusinessList.PaginationControls | src/components/BusinessList.js:169-191 | controls appear iff both parameters are empty and there is more than one page; Previous targets page-1 and is disabled iff page is 1; Next targets page+1 and is disabled iff page equals pages |
| BusinessList.EnabledButtonsStayInRange | src/components/BusinessList.js:176-184 | while the page is within 1..pages, an enabled button never requests a page outside that range |
| BusinessList.NextEnabledPastLastPage | src/components/BusinessList.js:182-184 | past the last page, Next stays enabled and requests a page beyond `pages` |
| BusinessList.OneParamShowsNeither | src/components/BusinessList.js:60-169 | with exactly one parameter set, the header `TitleFor` is "All Businesses" and no pagination controls exist, so a rendered table has neither the scoped header nor controls |
| BusinessList.Render | src/components/BusinessList.js:31-68 | the spinner when loading with nothing to show; else the error view when the error is truthy; else the empty message; else the table, whose count is the number of displayed records and whose rows are `RowOf` of each displayed record, in order, whose header is `TitleFor` (the scoped title iff both parameters are set, lines 60-63) and whose controls are `PaginationControls` |
| BusinessList.HandleDelete | src/components/BusinessList.js:21-25 | a delete is requested, for that id, exactly when the confirmation returned true |
| BusinessList.ConfirmedDeleteLeavesNoRow | src/components/BusinessList.js:21-24 | after a confirmed delete succeeds, no displayed record in either mode carries that id |
| JsText.Trim | src/components/SearchForm.js:15 | the trimmed string is empty iff every character is ECMAScript white space or a line terminator |
| SearchForm.ValidIsTrimmedNonEmpty | src/components/SearchForm.js:15 | the validation predicate `Valid` holds iff both trimmed inputs are non-empty |
| SearchForm.EditKeyword | src/components/SearchForm.js:62 | typing replaces the keyword only |
| SearchForm.EditLocation | src/components/SearchForm.js:77 | typing replaces the location only |
| SearchForm.Handle | src/components/SearchForm.js:13-38 | a refused form only alerts and changes nothing; a valid form dispatches first, then calls the callback with the untrimmed values if there is one, and opens the status panel |
| SearchForm.HandleSubmit | src/components/SearchForm.js:13-25 | a valid submit dispatches `startScraping` with the typed values and opens the panel; a refused one only alerts |
| SearchForm.HandleCheckStatus | src/components/SearchForm.js:27-38 | the same sequence with `checkScrapingStatus` |
| SearchForm.HandlersIgnoreSettlement | src/components/SearchForm.js:20-24 | the callback and the panel follow whether the awaited thunk fulfilled or was rejected |
| SearchForm.SubmitPassesUntrimmed | src/components/SearchForm.js:20-22 | the dispatch and the callback receive the inputs as typed, surrounding spaces included |
| SearchForm.Tick | src/components/SearchForm.js:40-46 | a tick dispatches `checkScrapingStatus` with the current inputs exactly while the panel is open and both untrimmed inputs are non-empty (`PollingActive`, line 41) |
| SearchForm.HideStatus | src/components/SearchForm.js:152 | "Hide Status" closes the panel, which stops the poll |
| SearchForm.HandledFormPolls | src/components/SearchForm.js:20-46 | after a valid submit or status check, the poll runs for the same parameters |
| SearchForm.WhitespaceKeepsPolling | src/components/SearchForm.js:41 | the poll tests the untrimmed inputs, so a blank keyword the handlers refuse keeps it running |
| SearchForm.StatusPanelHides | src/components/SearchForm.js:121 | the panel (`StatusPanelShown`: open flag and a stored snapshot) is hidden by clearing the stored status or by hiding the panel |
| SearchForm.StatusResponseShown | src/components/SearchForm.js:121-127 | after a status response, the panel shows iff it is open and the response carried a snapshot, it shows that snapshot whatever job it describes, and the progress block (`ProgressShown`) appears iff the snapshot carries progress |
| SearchForm.PollTickDisablesForm | src/components/SearchForm.js:65-107 | each poll tick disables the inputs and buttons (`ControlsDisabled`: the scraper loading flag) from its pending until the next settlement of any scraper thunk, its own response or another |
| SearchForm.RoundedPercent | src/components/SearchForm.js:132-134 | for a positive total, the percentage is the integer nearest to processed/total*100, halves rounded up |
| SearchForm.RoundedPercentInRange | src/components/SearchForm.js:132-134 | with 0 <= processed <= total, the rounded percentage lies in 0..100 |
| SearchForm.Percentage | src/components/SearchForm.js:132-134 | 0 when total <= 0, otherwise the rounded percentage, which lies in 0..100 when 0 <= processed <= total |
| ExportButton.MenuOptions | src/components/ExportButton.js:45-77 | with both parameters non-empty the menu is exactly Current Search, With Website, Without Website, Export All, in that order; otherwise it is Export All alone |
| ExportButton.HandleExport | src/components/ExportButton.js:10-13 | a click sends exactly keyword, location, the option's exportType and hasWebsite, and closes the menu |
| ExportButton.OptionBodies | src/components/ExportButton.js:48-72 | the plain scoped option sends no website filter; "Export All" still sends the current parameters |
| ExportButton.MenuOpenAfterOption | src/components/ExportButton.js:10-13 | over any click sequence, the menu is open after the last option click exactly when an odd number of toggle clicks (line 28) followed it |
| ExportButton.MenuOpenWithoutOption | src/components/ExportButton.js:28 | with no option clicked, the menu is open iff the starting state flipped an odd number of times |
| ExportButton.ListFetchDisablesExport | src/components/ExportButton.js:29 | a listing fetch in flight disables the export button (`ToggleDisabled`), since the loading flag is shared |
| ExportButton.DownloadNamesLastFulfilledExport | src/components/ExportButton.js:15-21 | after any action sequence, the download alert (`DownloadAlert`) names the file of the last export to be fulfilled, when its `filePath` is truthy, whichever export was requested last; a later failure leaves it |
| ExportButton.NoDownloadAfterClear | src/components/ExportButton.js:15-21 | after a `clearExportResult` no later export outlived, neither the alert nor the success panel appears |
| ExportButton.DownloadAfterRacingExports | src/components/ExportButton.js:15-21 | with two exports in flight, the alert names the file of the one issued first when it is fulfilled last |
| ExportButton.ListFailureShowsAsExportError | src/components/ExportButton.js:95-100 | a failed listing fetch shows under "Export Error" (`ErrorPanelShown`) |
| ExportButton.ExportFailureReplacesList | src/components/BusinessList.js:39-46 | a failed export replaces the business list with its error view |
| ExportButton.FailedExportKeepsEarlierResult | src/features/business/businessSlice.js:121-129 | after a fulfilled export and then a rejected one, the first result is still stored, so the success panel and the error panel show together |
| ExportButton.ExportSuccessClearsListError | src/components/ExportButton.js:82-100 | a successful export shows the success panel (`SuccessPanelShown`) and clears any earlier error from the list and the button |
| App.HandleSearchComplete | src/App.js:11-13 | keyword and location are replaced together |
| App.ChildProps | src/App.js:34-44 | the export button and the list both receive the current keyword/location pair, unchanged |
| App.InitialView | src/App.js:9 | the initial parameters select the paginated listing, which the initial store shows as the empty message |
| App.Deliver | src/App.js:30 | the form's callbacks leave the parameters unchanged or set them to the values of a `SearchComplete` call |
| App.Step | src/App.js:9-44 | only the form's handlers change the parameters, and a step keeps them both empty or both non-blank |
| App.ParamsAlwaysPaired | src/App.js:9-30 | after any sequence of user events, keyword and location are both empty or both non-blank |
| App.ListNeverHalfScoped | src/App.js:34-44 | the list is therefore scoped, or unscoped with controls exactly when there is more than one page; a rendered table carries controls exactly in the second case |
| App.SubmitSyncsChildren | src/App.js:30-44 | a valid submit points the list, the export button and the poll at the typed values |
| App.PollRetargetsWithoutList | src/components/SearchForm.js:40-46 | editing an input retargets the poll at once, while the list and the export button keep the submitted parameters |
| App.SearchResultsStayEmpty | src/components/BusinessList.js:13-18 | with only the thunks the components dispatch, `searchResults` stays `[]` forever |
| App.ScopedListNeverShowsTable | src/components/BusinessList.js:11-54 | so the scoped list shows only the spinner, the error view or the empty message, never a table |

## Left out

- The HTTP calls, `API_URL` and response decoding. Each thunk's outcome is an abstract fulfilled (payload) or rejected (message) action, and the payloads are assumed to have the documented shape (`data`, `pagination`).
- `error.message` is modelled as a string. An absent message is not modelled.
- `setInterval`/`clearInterval` timing and real concurrency. A poll tick is an event, and late responses are arbitrary action orders.
- React hooks and effect scheduling. The list's fetch effect is the pure choice `FetchOnChange`. When it re-runs (after every page change that the server echoes back) is not modelled.
- JSX markup, Tailwind classes and the rating/review cells of the table. `searchHistory` is only stored (`src/features/business/businessSlice.js:145`); no component displays it.
- App.Step, App.SubmitSyncsChildren, SearchForm.Handle: the await between a handler's dispatch and its `onSearchComplete` call is collapsed into one event. Edits and "Hide Status" clicks made while a start or status check is pending are not modelled; in the source the callback then delivers the values captured at the click, while the poll follows the edited inputs.
- ExportButton.MenuAfter: a click on the toggle while it is disabled, and the delay before an option click closes the menu (the handler awaits its dispatch), are not modelled; every click is an event that takes effect at once.
- `window.confirm` is a boolean input. `alert` becomes an effect (`MissingInputAlert`, `DownloadAlert`).
- `Date` formatting of `lastScraped`.
- SearchForm.Percentage, SearchForm.RoundedPercent: JavaScript's floating-point division before `Math.round` is not modelled. The model rounds the exact rational value, so it can differ from the browser by one near a rounding boundary.
- The progress-bar width style, which is a float.
- `src/TestTailwind.js` is pure markup.
- `configureStore` in `src/app/store.js` is library wiring. It is modelled only as the pair of slice states.
- The `typeof onSearchComplete === 'function'` test is the `hasCallback` flag. `App` always passes `true`.
- Guards the code does not have are not added: stale-key checks, sequence numbers, export request correlation, retries and timeouts.
