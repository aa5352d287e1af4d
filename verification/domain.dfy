/** The records the client receives from the remote API, as far as the client reads them. */
module Domain {
  import opened Common

  /** One scraped business; `id` is the server's `_id`, the only stable identity. */
  datatype Business = Business(
    id: string,
    name: string,
    address: string,
    phone: Option<string>,
    website: Option<string>,
    rating: Option<real>,
    totalReviews: Option<int>,
    category: Option<string>)

  /** Server-side pagination metadata of the global listing. */
  datatype Pagination = Pagination(page: int, limit: int, total: int, pages: int)

  /** Body of a successful `GET /businesses` response. */
  datatype FetchPayload = FetchPayload(data: seq<Business>, pagination: Pagination)

  /** Body of a successful export response. */
  datatype ExportResult = ExportResult(fileName: string, filePath: Option<string>, totalRecords: int)

  /** An entry of the search history; the client never looks inside it. */
  datatype HistoryEntry = HistoryEntry(raw: string)

  /** Progress counters of a scrape job. */
  datatype Progress = Progress(processed: int, total: int)

  /** The job snapshot the status and start endpoints return under `data`. */
  datatype JobSnapshot = JobSnapshot(
    keyword: string,
    location: string,
    totalFound: int,
    progress: Option<Progress>,
    lastScraped: Option<string>)

  /** Body of the scraper self-test response; the client never looks inside it. */
  datatype TestReport = TestReport(raw: string)
}
