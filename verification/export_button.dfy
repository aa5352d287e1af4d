/** The decision logic of the export button: which menu options exist, what a click sends,
    and which result panels appear. */
module ExportButton {
  import opened Common
  import opened Domain
  import opened Actions
  import BusinessSlice
  import BusinessList

  /** A menu entry: the `exportType` and `hasWebsite` it passes to the handler. */
  datatype ExportOption = ExportOption(exportType: string, hasWebsite: Option<string>)

  const CurrentSearch := ExportOption("search", None)
  const OnlyWithWebsite := ExportOption("search", Some("with"))
  const OnlyWithoutWebsite := ExportOption("search", Some("without"))
  const AllResults := ExportOption("all", None)

  /** The menu, top to bottom. */
  function MenuOptions(keyword: string, location: string): (opts: seq<ExportOption>)
    ensures |opts| == if BusinessList.Scoped(keyword, location) then 4 else 1
    ensures opts[|opts| - 1] == AllResults
    ensures (exists o | o in opts :: o.exportType == "search") <==> BusinessList.Scoped(keyword, location)
    ensures BusinessList.Scoped(keyword, location) ==>
      opts[0] == CurrentSearch && opts[1] == OnlyWithWebsite && opts[2] == OnlyWithoutWebsite
    ensures forall i, j | 0 <= i < j < |opts| :: opts[i] != opts[j]
  {
    (if BusinessList.Scoped(keyword, location) then [CurrentSearch, OnlyWithWebsite, OnlyWithoutWebsite] else [])
    + [AllResults]
  }

  /** A click on an option: the argument object handed to `exportBusinesses`, and the menu
      closed once the dispatch has settled. */
  datatype Click = Click(args: BusinessSlice.ExportArgs, menuOpen: bool)

  function HandleExport(keyword: string, location: string, option: ExportOption): (c: Click)
    ensures BusinessSlice.ExportRequestBody(c.args)
         == BusinessSlice.ExportBody(keyword, location, option.exportType, option.hasWebsite)
    ensures !c.menuOpen
  {
    Click(BusinessSlice.ExportArgs(keyword, location, Some(option.exportType), option.hasWebsite), false)
  }

  /** The plain scoped option sends no website filter; "Export All" still sends the parameters. */
  lemma OptionBodies(keyword: string, location: string)
    ensures BusinessSlice.ExportRequestBody(HandleExport(keyword, location, CurrentSearch).args).hasWebsite.None?
    ensures var b := BusinessSlice.ExportRequestBody(HandleExport(keyword, location, AllResults).args);
      b.exportType == "all" && b.keyword == keyword && b.location == location
  {
  }

  /** The toggle button's `onClick`. */
  function Toggle(menuOpen: bool): (r: bool)
    ensures r != menuOpen
  {
    !menuOpen
  }

  /** What the user does to the menu: the toggle button, or one of its options. */
  datatype MenuEvent = ToggleClick | OptionClick(option: ExportOption)

  /** Whether the menu is open after the events, starting from `menuOpen`. */
  function MenuAfter(keyword: string, location: string, menuOpen: bool, events: seq<MenuEvent>): bool
    decreases |events|
  {
    if |events| == 0 then menuOpen
    else
      var m := MenuAfter(keyword, location, menuOpen, events[..|events| - 1]);
      match events[|events| - 1]
      case ToggleClick => Toggle(m)
      case OptionClick(o) => HandleExport(keyword, location, o).menuOpen
  }

  /** After the last option click, the menu is open exactly when an odd number of toggle clicks
      followed it. */
  lemma {:induction false} MenuOpenAfterOption(keyword: string, location: string, menuOpen: bool,
                                               events: seq<MenuEvent>, k: nat)
    requires k < |events| && events[k].OptionClick?
    requires forall j | k < j < |events| :: events[j].ToggleClick?
    ensures MenuAfter(keyword, location, menuOpen, events) <==> (|events| - 1 - k) % 2 == 1
    decreases |events|
  {
    if k < |events| - 1 {
      var prefix := events[..|events| - 1];
      assert forall j | 0 <= j < |prefix| :: prefix[j] == events[j];
      MenuOpenAfterOption(keyword, location, menuOpen, prefix, k);
    }
  }

  /** With no option clicked, every toggle click flips the starting state. */
  lemma {:induction false} MenuOpenWithoutOption(keyword: string, location: string, menuOpen: bool,
                                                 events: seq<MenuEvent>)
    requires forall j | 0 <= j < |events| :: events[j].ToggleClick?
    ensures MenuAfter(keyword, location, menuOpen, events) <==> (menuOpen <==> |events| % 2 == 0)
    decreases |events|
  {
    if |events| > 0 {
      var prefix := events[..|events| - 1];
      assert forall j | 0 <= j < |prefix| :: prefix[j] == events[j];
      MenuOpenWithoutOption(keyword, location, menuOpen, prefix);
    }
  }

  /** The toggle is disabled while the business slice's shared flag is raised. */
  predicate ToggleDisabled(s: BusinessSlice.State) {
    s.isLoading
  }

  /** A listing fetch in flight disables the export button. */
  lemma ListFetchDisablesExport(s: BusinessSlice.State)
    ensures ToggleDisabled(BusinessSlice.Reduce(s, FetchBusinessesPending))
  {
  }

  /** The alert `downloadFile` raises, if any. */
  function DownloadAlert(result: Option<ExportResult>): (message: Option<string>)
    ensures message.Some? <==> result.Some? && Truthy(result.value.filePath)
    ensures message.Some? ==> message.value == "File exported successfully: " + result.value.fileName
  {
    if result.Some? && Truthy(result.value.filePath) then
      Some("File exported successfully: " + result.value.fileName)
    else None
  }

  /** After any action sequence, "Download File" names the file of the last export to be
      fulfilled, whichever export was requested last; a later failure leaves it. */
  lemma {:induction false} DownloadNamesLastFulfilledExport(s: BusinessSlice.State, acts: seq<Action>, k: nat)
    requires k < |acts| && acts[k].ExportBusinessesFulfilled? && Truthy(acts[k].result.filePath)
    requires forall j | k < j < |acts| :: !acts[j].ExportBusinessesFulfilled? && !acts[j].ClearExportResult?
    ensures DownloadAlert(BusinessSlice.Run(s, acts).exportResult)
         == Some("File exported successfully: " + acts[k].result.fileName)
  {
    BusinessSlice.RunExportResultIsLastWrite(s, acts);
    LastWriteAt(s.exportResult, acts, BusinessSlice.ExportResultWrite, k);
  }

  /** After a `clearExportResult` that no export outlived, there is nothing to download. */
  lemma {:induction false} NoDownloadAfterClear(s: BusinessSlice.State, acts: seq<Action>, k: nat)
    requires k < |acts| && acts[k].ClearExportResult?
    requires forall j | k < j < |acts| :: !acts[j].ExportBusinessesFulfilled? && !acts[j].ClearExportResult?
    ensures DownloadAlert(BusinessSlice.Run(s, acts).exportResult).None?
    ensures !SuccessPanelShown(BusinessSlice.Run(s, acts))
  {
    BusinessSlice.RunExportResultIsLastWrite(s, acts);
    LastWriteAt(s.exportResult, acts, BusinessSlice.ExportResultWrite, k);
  }

  /** Two exports in flight: the alert names the one issued first when it is fulfilled last. */
  lemma DownloadAfterRacingExports(s: BusinessSlice.State, first: ExportResult, second: ExportResult)
    requires Truthy(first.filePath)
    ensures DownloadAlert(BusinessSlice.Run(s, [ExportBusinessesPending, ExportBusinessesPending,
                                                ExportBusinessesFulfilled(second), ExportBusinessesFulfilled(first)]).exportResult)
         == Some("File exported successfully: " + first.fileName)
  {
    DownloadNamesLastFulfilledExport(s, [ExportBusinessesPending, ExportBusinessesPending,
                                        ExportBusinessesFulfilled(second), ExportBusinessesFulfilled(first)], 3);
  }

  /** The "Export Successful!" panel appears whenever an export result is stored. */
  predicate SuccessPanelShown(s: BusinessSlice.State) {
    s.exportResult.Some?
  }

  /** The "Export Error" panel appears whenever the shared error is truthy. */
  predicate ErrorPanelShown(s: BusinessSlice.State) {
    Truthy(s.error)
  }

  /** The error is shared: a failed listing fetch appears under "Export Error". */
  lemma ListFailureShowsAsExportError(s: BusinessSlice.State, message: string)
    requires message != ""
    ensures ErrorPanelShown(BusinessSlice.Reduce(s, FetchBusinessesRejected(message)))
  {
  }

  /** ... and a failed export replaces the whole list with its error view. */
  lemma ExportFailureReplacesList(s: BusinessSlice.State, message: string, keyword: string, location: string)
    requires message != ""
    ensures BusinessList.Render(BusinessSlice.Reduce(s, ExportBusinessesRejected(message)), keyword, location)
         == BusinessList.ErrorPanel(message)
  {
  }

  /** A successful export clears a listing error, and the success panel appears. */
  lemma ExportSuccessClearsListError(s: BusinessSlice.State, x: ExportResult, keyword: string, location: string)
    ensures var r := BusinessSlice.Reduce(s, ExportBusinessesFulfilled(x));
      SuccessPanelShown(r) && !ErrorPanelShown(r) && !BusinessList.Render(r, keyword, location).ErrorPanel?
  {
  }

  /** A failed export writes no result: the earlier success panel stays beside the new error. */
  lemma FailedExportKeepsEarlierResult(s: BusinessSlice.State, x: ExportResult, message: string)
    requires message != ""
    ensures var r := BusinessSlice.Run(s, [ExportBusinessesPending, ExportBusinessesFulfilled(x),
                                           ExportBusinessesPending, ExportBusinessesRejected(message)]);
      r.exportResult == Some(x) && SuccessPanelShown(r) && ErrorPanelShown(r)
  {
    var acts := [ExportBusinessesPending, ExportBusinessesFulfilled(x),
                 ExportBusinessesPending, ExportBusinessesRejected(message)];
    BusinessSlice.RunExportResultIsLastWrite(s, acts);
    LastWriteAt(s.exportResult, acts, BusinessSlice.ExportResultWrite, 1);
    BusinessSlice.RunErrorIsLastWrite(s, acts);
    LastWriteAt(s.error, acts, BusinessSlice.ErrorWrite, 3);
  }
}
