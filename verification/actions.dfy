/** The actions the store dispatches.  Every async thunk contributes three action types (pending,
    fulfilled with its payload, rejected with `error.message`); every slice reducer sees every
    action and ignores the ones it has no case for. */
module Actions {
  import opened Common
  import opened Domain

  datatype Action =
    // business/fetchBusinesses
    | FetchBusinessesPending
    | FetchBusinessesFulfilled(payload: FetchPayload)
    | FetchBusinessesRejected(message: string)
    // business/searchBusinesses
    | SearchBusinessesPending
    | SearchBusinessesFulfilled(results: seq<Business>)
    | SearchBusinessesRejected(message: string)
    // business/exportBusinesses
    | ExportBusinessesPending
    | ExportBusinessesFulfilled(result: ExportResult)
    | ExportBusinessesRejected(message: string)
    // business/deleteBusiness (its payload is the deleted id)
    | DeleteBusinessPending
    | DeleteBusinessFulfilled(id: string)
    | DeleteBusinessRejected(message: string)
    // business/fetchSearchHistory
    | FetchSearchHistoryPending
    | FetchSearchHistoryFulfilled(entries: seq<HistoryEntry>)
    | FetchSearchHistoryRejected(message: string)
    // business slice's own reducers
    | BusinessClearError
    | ClearExportResult
    | SetPage(page: int)
    // scraper/startScraping
    | StartScrapingPending
    | StartScrapingFulfilled(data: Option<JobSnapshot>)
    | StartScrapingRejected(message: string)
    // scraper/checkScrapingStatus
    | CheckScrapingStatusPending
    | CheckScrapingStatusFulfilled(data: Option<JobSnapshot>)
    | CheckScrapingStatusRejected(message: string)
    // scraper/testScraper
    | TestScraperPending
    | TestScraperFulfilled(report: TestReport)
    | TestScraperRejected(message: string)
    // scraper slice's own reducers
    | ScraperClearError
    | ClearScrapingStatus

  /** Actions whose type starts with `business/`. */
  predicate IsBusinessAction(a: Action) {
    || a.FetchBusinessesPending? || a.FetchBusinessesFulfilled? || a.FetchBusinessesRejected?
    || a.SearchBusinessesPending? || a.SearchBusinessesFulfilled? || a.SearchBusinessesRejected?
    || a.ExportBusinessesPending? || a.ExportBusinessesFulfilled? || a.ExportBusinessesRejected?
    || a.DeleteBusinessPending? || a.DeleteBusinessFulfilled? || a.DeleteBusinessRejected?
    || a.FetchSearchHistoryPending? || a.FetchSearchHistoryFulfilled? || a.FetchSearchHistoryRejected?
    || a.BusinessClearError? || a.ClearExportResult? || a.SetPage?
  }

  /** Actions whose type starts with `scraper/`. */
  predicate IsScraperAction(a: Action) {
    !IsBusinessAction(a)
  }
}
