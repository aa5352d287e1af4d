/** The `scraper` slice: the latest job-status snapshot, the data returned by the last start,
    the self-test result, and one loading flag and error shared by the three scraper thunks. */
module ScraperSlice {
  import opened Common
  import opened Domain
  import opened Actions

  datatype State = State(
    isLoading: bool,
    error: Option<string>,
    scrapingStatus: Option<JobSnapshot>,
    testResult: Option<TestReport>,
    lastScrapedData: Option<JobSnapshot>)

  const Initial := State(false, None, None, None, None)

  predicate Starts(a: Action) {
    a.StartScrapingPending? || a.CheckScrapingStatusPending? || a.TestScraperPending?
  }

  predicate Rejects(a: Action) {
    a.StartScrapingRejected? || a.CheckScrapingStatusRejected? || a.TestScraperRejected?
  }

  predicate Settles(a: Action) {
    a.StartScrapingFulfilled? || a.CheckScrapingStatusFulfilled? || a.TestScraperFulfilled? || Rejects(a)
  }

  /** The slice reducer.  A status response is stored whatever job it describes. */
  function Reduce(s: State, a: Action): (r: State)
    ensures r.scrapingStatus != s.scrapingStatus ==> a.CheckScrapingStatusFulfilled? || a.ClearScrapingStatus?
    ensures a.CheckScrapingStatusFulfilled? ==> r.scrapingStatus == a.data
    ensures r.lastScrapedData != s.lastScrapedData ==> a.StartScrapingFulfilled?
    ensures r.testResult != s.testResult ==> a.TestScraperFulfilled?
    ensures r.error != s.error ==> a.StartScrapingPending? || a.StartScrapingFulfilled? || Rejects(a) || a.ScraperClearError?
    ensures Rejects(a) ==> r.error == Some(a.message)
    ensures Starts(a) ==> r.isLoading
    ensures Settles(a) ==> !r.isLoading
    ensures r.isLoading != s.isLoading ==> Starts(a) || Settles(a)
    ensures !IsScraperAction(a) ==> r == s
  {
    match a
    case StartScrapingPending => s.(isLoading := true, error := None)
    case StartScrapingFulfilled(d) => s.(isLoading := false, lastScrapedData := d, error := None)
    case StartScrapingRejected(m) => s.(isLoading := false, error := Some(m))
    case CheckScrapingStatusPending => s.(isLoading := true)
    case CheckScrapingStatusFulfilled(d) => s.(isLoading := false, scrapingStatus := d)
    case CheckScrapingStatusRejected(m) => s.(isLoading := false, error := Some(m))
    case TestScraperPending => s.(isLoading := true)
    case TestScraperFulfilled(t) => s.(isLoading := false, testResult := Some(t))
    case TestScraperRejected(m) => s.(isLoading := false, error := Some(m))
    case ScraperClearError => s.(error := None)
    case ClearScrapingStatus => s.(scrapingStatus := None)
    case _ => s
  }

  // ---------------------------------------------------------------- single-action properties

  /** Starting a scrape clears the error; its success stores `data` and leaves the status alone. */
  lemma StartScrapingCases(s: State, d: Option<JobSnapshot>)
    ensures Reduce(s, StartScrapingPending) == s.(isLoading := true, error := None)
    ensures var r := Reduce(s, StartScrapingFulfilled(d));
      r.lastScrapedData == d && r.error.None? && !r.isLoading && r.scrapingStatus == s.scrapingStatus
  {
  }

  /** A status check neither clears an existing error when it starts nor when it succeeds. */
  lemma StatusCheckKeepsError(s: State, d: Option<JobSnapshot>)
    ensures Reduce(s, CheckScrapingStatusPending) == s.(isLoading := true)
    ensures Reduce(s, CheckScrapingStatusFulfilled(d)) == s.(isLoading := false, scrapingStatus := d)
  {
  }

  /** Every rejection records its message and leaves the job data untouched. */
  lemma RejectionKeepsJobData(s: State, a: Action)
    requires Rejects(a)
    ensures Reduce(s, a) == s.(isLoading := false, error := Some(a.message))
  {
  }

  /** Each clear resets exactly one field. */
  lemma ClearsResetOneField(s: State)
    ensures Reduce(s, ClearScrapingStatus) == s.(scrapingStatus := None)
    ensures Reduce(s, ScraperClearError) == s.(error := None)
  {
  }

  // ---------------------------------------------------------------- folds over action sequences

  function Run(s: State, acts: seq<Action>): State
    decreases |acts|
  {
    if |acts| == 0 then s else Reduce(Run(s, acts[..|acts| - 1]), acts[|acts| - 1])
  }

  /** What each action stores in `scrapingStatus`. */
  function StatusWrite(a: Action): Option<Option<JobSnapshot>> {
    if a.CheckScrapingStatusFulfilled? then Some(a.data)
    else if a.ClearScrapingStatus? then Some(None)
    else None
  }

  /** What each action stores in `isLoading`. */
  function LoadingWrite(a: Action): Option<bool> {
    if Starts(a) then Some(true) else if Settles(a) then Some(false) else None
  }

  /** Whatever the order responses arrive in, the status shown is the last one to be fulfilled;
      a later failed check leaves it. */
  lemma {:induction false} RunStatusIsLastWrite(s: State, acts: seq<Action>)
    ensures Run(s, acts).scrapingStatus == LastWrite(s.scrapingStatus, acts, StatusWrite)
    decreases |acts|
  {
    if |acts| > 0 {
      RunStatusIsLastWrite(s, acts[..|acts| - 1]);
    }
  }

  /** One flag for three thunks: the last start or settlement of any of them decides it. */
  lemma {:induction false} RunLoadingIsLastWrite(s: State, acts: seq<Action>)
    ensures Run(s, acts).isLoading == LastWrite(s.isLoading, acts, LoadingWrite)
    decreases |acts|
  {
    if |acts| > 0 {
      RunLoadingIsLastWrite(s, acts[..|acts| - 1]);
    }
  }

  /** A late response for an abandoned search overwrites the snapshot of the current one. */
  lemma StaleStatusOverwritesNewer(s: State, abandoned: JobSnapshot, current: JobSnapshot)
    requires abandoned.keyword != current.keyword || abandoned.location != current.location
    ensures Run(s, [CheckScrapingStatusPending, CheckScrapingStatusPending,
                    CheckScrapingStatusFulfilled(Some(current)),
                    CheckScrapingStatusFulfilled(Some(abandoned))]).scrapingStatus
         == Some(abandoned)
  {
    RunStatusIsLastWrite(s, [CheckScrapingStatusPending, CheckScrapingStatusPending,
                             CheckScrapingStatusFulfilled(Some(current)),
                             CheckScrapingStatusFulfilled(Some(abandoned))]);
  }

  /** A status check that settles lowers the flag while the scrape it raced is still pending. */
  lemma SharedLoadingFlag(s: State, d: Option<JobSnapshot>)
    ensures !Run(s, [StartScrapingPending, CheckScrapingStatusPending, CheckScrapingStatusFulfilled(d)]).isLoading
  {
    RunLoadingIsLastWrite(s, [StartScrapingPending, CheckScrapingStatusPending, CheckScrapingStatusFulfilled(d)]);
  }
}
