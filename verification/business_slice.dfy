/** The `business` slice: the paginated listing, the scoped search results, the pagination
    record, one shared loading flag and error, and the latest export result. */
module BusinessSlice {
  import opened Common
  import opened Domain
  import opened Actions

  const DefaultPage := 1
  const DefaultLimit := 50

  datatype State = State(
    businesses: seq<Business>,
    searchResults: seq<Business>,
    searchHistory: seq<HistoryEntry>,
    pagination: Pagination,
    isLoading: bool,
    error: Option<string>,
    exportResult: Option<ExportResult>)

  const Initial := State([], [], [], Pagination(1, 50, 0, 0), false, None, None)

  // ---------------------------------------------------------------- request construction

  /** The argument object of `fetchBusinesses`; an absent field is `undefined`. */
  datatype FetchArgs = FetchArgs(page: Option<int>, limit: Option<int>, keyword: Option<string>, location: Option<string>)

  datatype ParamValue = Num(n: int) | Text(s: string)
  datatype QueryParam = QueryParam(name: string, value: ParamValue)

  /** The `URLSearchParams` of `GET /businesses`, in order. */
  function FetchQuery(args: FetchArgs): (q: seq<QueryParam>)
    ensures |q| == 2 + (if Truthy(args.keyword) then 1 else 0) + (if Truthy(args.location) then 1 else 0)
    ensures q[0] == QueryParam("page", Num(if args.page.Some? then args.page.value else DefaultPage))
    ensures q[1] == QueryParam("limit", Num(if args.limit.Some? then args.limit.value else DefaultLimit))
    ensures Truthy(args.keyword) ==> q[2] == QueryParam("keyword", Text(args.keyword.value))
    ensures Truthy(args.location) ==> q[|q| - 1] == QueryParam("location", Text(args.location.value))
    ensures forall i | 2 <= i < |q| :: q[i].name == "keyword" || q[i].name == "location"
  {
    [QueryParam("page", Num(ValueOr(args.page, DefaultPage))), QueryParam("limit", Num(ValueOr(args.limit, DefaultLimit)))]
    + (if Truthy(args.keyword) then [QueryParam("keyword", Text(args.keyword.value))] else [])
    + (if Truthy(args.location) then [QueryParam("location", Text(args.location.value))] else [])
  }

  /** The argument object of `exportBusinesses`. */
  datatype ExportArgs = ExportArgs(keyword: string, location: string, exportType: Option<string>, hasWebsite: Option<string>)

  /** The JSON body posted to `/businesses/export`; `exportType` defaults to `'search'`. */
  datatype ExportBody = ExportBody(keyword: string, location: string, exportType: string, hasWebsite: Option<string>)

  function ExportRequestBody(args: ExportArgs): (b: ExportBody)
    ensures b.keyword == args.keyword && b.location == args.location && b.hasWebsite == args.hasWebsite
    ensures args.exportType.None? ==> b.exportType == "search"
    ensures args.exportType.Some? ==> b.exportType == args.exportType.value
  {
    ExportBody(args.keyword, args.location, ValueOr(args.exportType, "search"), args.hasWebsite)
  }

  // ---------------------------------------------------------------- deletion filter

  /** `bs.filter(b => b._id !== id)`. */
  function RemoveId(bs: seq<Business>, id: string): (r: seq<Business>)
    ensures forall b :: b in r <==> b in bs && b.id != id
    ensures |r| <= |bs|
    decreases |bs|
  {
    if |bs| == 0 then []
    else if bs[0].id == id then RemoveId(bs[1..], id)
    else [bs[0]] + RemoveId(bs[1..], id)
  }

  /** Removing every id of `ids`; the reference the folds below are stated against. */
  function RemoveAll(bs: seq<Business>, ids: set<string>): (r: seq<Business>)
    ensures forall b :: b in r <==> b in bs && b.id !in ids
    decreases |bs|
  {
    if |bs| == 0 then []
    else if bs[0].id in ids then RemoveAll(bs[1..], ids)
    else [bs[0]] + RemoveAll(bs[1..], ids)
  }

  /** The filter works record by record: it distributes over concatenation, so the records it
      keeps stay in their original relative order. */
  lemma {:induction false} RemoveIdDistributes(a: seq<Business>, b: seq<Business>, id: string)
    ensures RemoveId(a + b, id) == RemoveId(a, id) + RemoveId(b, id)
    decreases |a|
  {
    if |a| == 0 {
      assert a + b == b;
    } else {
      assert (a + b)[1..] == a[1..] + b;
      RemoveIdDistributes(a[1..], b, id);
    }
  }

  /** A list holding no record with that id is left as it is. */
  lemma {:induction false} RemoveIdAbsent(bs: seq<Business>, id: string)
    requires forall i | 0 <= i < |bs| :: bs[i].id != id
    ensures RemoveId(bs, id) == bs
    decreases |bs|
  {
    if |bs| > 0 {
      RemoveIdAbsent(bs[1..], id);
      assert bs == [bs[0]] + bs[1..];
    }
  }

  /** Deleting the same id twice is deleting it once. */
  lemma {:induction false} RemoveIdIdempotent(bs: seq<Business>, id: string)
    ensures RemoveId(RemoveId(bs, id), id) == RemoveId(bs, id)
    decreases |bs|
  {
    var r := RemoveId(bs, id);
    forall i | 0 <= i < |r|
      ensures r[i].id != id
    {
      assert r[i] in r;
    }
    RemoveIdAbsent(r, id);
  }

  lemma {:induction false} RemoveAllNothing(bs: seq<Business>)
    ensures RemoveAll(bs, {}) == bs
    decreases |bs|
  {
    if |bs| > 0 {
      RemoveAllNothing(bs[1..]);
      assert bs == [bs[0]] + bs[1..];
    }
  }

  /** One more deletion after a batch of deletions is the batch with that id added. */
  lemma {:induction false} RemoveIdAfterRemoveAll(bs: seq<Business>, ids: set<string>, id: string)
    ensures RemoveId(RemoveAll(bs, ids), id) == RemoveAll(bs, ids + {id})
    decreases |bs|
  {
    if |bs| > 0 {
      RemoveIdAfterRemoveAll(bs[1..], ids, id);
    }
  }

  // ---------------------------------------------------------------- reducer

  /** Actions that raise the shared loading flag. */
  predicate Starts(a: Action) {
    a.FetchBusinessesPending? || a.SearchBusinessesPending? || a.ExportBusinessesPending? || a.FetchSearchHistoryPending?
  }

  /** Rejections the slice has a case for (deleteBusiness has none). */
  predicate Rejects(a: Action) {
    a.FetchBusinessesRejected? || a.SearchBusinessesRejected? || a.ExportBusinessesRejected? || a.FetchSearchHistoryRejected?
  }

  /** Settlements that lower the shared loading flag. */
  predicate Settles(a: Action) {
    || a.FetchBusinessesFulfilled? || a.SearchBusinessesFulfilled? || a.ExportBusinessesFulfilled?
    || a.FetchSearchHistoryFulfilled? || Rejects(a)
  }

  /** The slice reducer. */
  function Reduce(s: State, a: Action): (r: State)
    ensures r.businesses != s.businesses ==> a.FetchBusinessesFulfilled? || a.DeleteBusinessFulfilled?
    ensures r.searchResults != s.searchResults ==> a.SearchBusinessesFulfilled? || a.DeleteBusinessFulfilled?
    ensures r.searchHistory != s.searchHistory ==> a.FetchSearchHistoryFulfilled?
    ensures r.pagination != s.pagination ==> a.FetchBusinessesFulfilled? || a.SetPage?
    ensures r.exportResult != s.exportResult ==> a.ExportBusinessesFulfilled? || a.ClearExportResult?
    ensures r.isLoading != s.isLoading ==> Starts(a) || Settles(a)
    ensures Starts(a) ==> r.isLoading
    ensures Settles(a) ==> !r.isLoading
    ensures Rejects(a) ==> r.error == Some(a.message)
    ensures r.error != s.error ==> Starts(a) || Settles(a) || a.BusinessClearError?
    ensures !IsBusinessAction(a) ==> r == s
  {
    match a
    case FetchBusinessesPending => s.(isLoading := true, error := None)
    case FetchBusinessesFulfilled(p) =>
      s.(isLoading := false, businesses := p.data, pagination := p.pagination, error := None)
    case FetchBusinessesRejected(m) => s.(isLoading := false, error := Some(m))
    case SearchBusinessesPending => s.(isLoading := true, error := None)
    case SearchBusinessesFulfilled(rs) => s.(isLoading := false, searchResults := rs, error := None)
    case SearchBusinessesRejected(m) => s.(isLoading := false, error := Some(m))
    case ExportBusinessesPending => s.(isLoading := true, error := None)
    case ExportBusinessesFulfilled(x) => s.(isLoading := false, exportResult := Some(x), error := None)
    case ExportBusinessesRejected(m) => s.(isLoading := false, error := Some(m))
    case DeleteBusinessFulfilled(id) =>
      s.(businesses := RemoveId(s.businesses, id), searchResults := RemoveId(s.searchResults, id))
    case FetchSearchHistoryPending => s.(isLoading := true)
    case FetchSearchHistoryFulfilled(es) => s.(isLoading := false, searchHistory := es)
    case FetchSearchHistoryRejected(m) => s.(isLoading := false, error := Some(m))
    case BusinessClearError => s.(error := None)
    case ClearExportResult => s.(exportResult := None)
    case SetPage(n) => s.(pagination := s.pagination.(page := n))
    case _ => s
  }

  // ---------------------------------------------------------------- single-action properties

  /** `fetchBusinesses.fulfilled` replaces the listing and its pagination wholesale. */
  lemma FetchFulfilledReplacesListing(s: State, p: FetchPayload)
    ensures var r := Reduce(s, FetchBusinessesFulfilled(p));
      && r.businesses == p.data && r.pagination == p.pagination
      && !r.isLoading && r.error.None?
      && r.searchResults == s.searchResults && r.exportResult == s.exportResult
      && r.searchHistory == s.searchHistory
  {
  }

  /** `searchBusinesses.fulfilled` replaces the search results and nothing else of the data. */
  lemma SearchFulfilledReplacesOnlyResults(s: State, rs: seq<Business>)
    ensures var r := Reduce(s, SearchBusinessesFulfilled(rs));
      && r.searchResults == rs && !r.isLoading && r.error.None?
      && r.businesses == s.businesses && r.pagination == s.pagination
      && r.exportResult == s.exportResult && r.searchHistory == s.searchHistory
  {
  }

  /** Every rejection records its message and lowers the flag, and touches no data. */
  lemma RejectionKeepsData(s: State, a: Action)
    requires Rejects(a)
    ensures Reduce(s, a) == s.(isLoading := false, error := Some(a.message))
  {
  }

  /** Pending fetch, search and export clear the error; pending history keeps it. */
  lemma PendingCases(s: State, a: Action)
    requires Starts(a)
    ensures a.FetchSearchHistoryPending? ==> Reduce(s, a) == s.(isLoading := true)
    ensures !a.FetchSearchHistoryPending? ==> Reduce(s, a) == s.(isLoading := true, error := None)
  {
  }

  /** `deleteBusiness` has no pending or rejected case: a delete that fails changes nothing. */
  lemma FailedDeleteChangesNothing(s: State, m: string)
    ensures Reduce(s, DeleteBusinessPending) == s
    ensures Reduce(s, DeleteBusinessRejected(m)) == s
  {
  }

  /** A confirmed delete removes the id from both collections and keeps everything else. */
  lemma DeleteRemovesFromBoth(s: State, id: string)
    ensures var r := Reduce(s, DeleteBusinessFulfilled(id));
      && (forall b :: b in r.businesses <==> b in s.businesses && b.id != id)
      && (forall b :: b in r.searchResults <==> b in s.searchResults && b.id != id)
      && r.pagination == s.pagination && r.isLoading == s.isLoading && r.error == s.error
      && r.exportResult == s.exportResult && r.searchHistory == s.searchHistory
  {
  }

  /** Applying the same delete twice equals applying it once. */
  lemma DeleteIdempotent(s: State, id: string)
    ensures Reduce(Reduce(s, DeleteBusinessFulfilled(id)), DeleteBusinessFulfilled(id))
         == Reduce(s, DeleteBusinessFulfilled(id))
  {
    RemoveIdIdempotent(s.businesses, id);
    RemoveIdIdempotent(s.searchResults, id);
  }

  /** `setPage` changes only `pagination.page`; each clear resets exactly one field. */
  lemma SynchronousReducers(s: State, n: int)
    ensures Reduce(s, SetPage(n)) == s.(pagination := s.pagination.(page := n))
    ensures Reduce(s, BusinessClearError) == s.(error := None)
    ensures Reduce(s, ClearExportResult) == s.(exportResult := None)
  {
  }

  // ---------------------------------------------------------------- folds over action sequences

  /** The slice state after `acts` have been dispatched, in order, starting from `s`. */
  function Run(s: State, acts: seq<Action>): State
    decreases |acts|
  {
    if |acts| == 0 then s else Reduce(Run(s, acts[..|acts| - 1]), acts[|acts| - 1])
  }

  /** The ids of every confirmed delete in `acts`. */
  function DeletedIds(acts: seq<Action>): (ids: set<string>)
    ensures forall i | 0 <= i < |acts| && acts[i].DeleteBusinessFulfilled? :: acts[i].id in ids
    ensures forall id | id in ids :: DeleteBusinessFulfilled(id) in acts
    decreases |acts|
  {
    if |acts| == 0 then {}
    else
      var prefix := acts[..|acts| - 1];
      var last := acts[|acts| - 1];
      var earlier := DeletedIds(prefix);
      assert forall i | 0 <= i < |prefix| :: prefix[i] == acts[i];
      assert forall x | x in prefix :: x in acts;
      earlier + (if last.DeleteBusinessFulfilled? then {last.id} else {})
  }

  /** One step of the folds below, stated on its own to keep their proofs small. */
  lemma StepSearch(before: State, last: Action, ids: set<string>, start: seq<Business>)
    requires !last.SearchBusinessesFulfilled?
    requires before.searchResults == RemoveAll(start, ids)
    ensures Reduce(before, last).searchResults
         == RemoveAll(start, ids + (if last.DeleteBusinessFulfilled? then {last.id} else {}))
  {
    if last.DeleteBusinessFulfilled? {
      RemoveIdAfterRemoveAll(start, ids, last.id);
    } else {
      assert ids + {} == ids;
    }
  }

  lemma StepFetch(before: State, last: Action, ids: set<string>, start: seq<Business>)
    requires !last.FetchBusinessesFulfilled?
    requires before.businesses == RemoveAll(start, ids)
    ensures Reduce(before, last).businesses
         == RemoveAll(start, ids + (if last.DeleteBusinessFulfilled? then {last.id} else {}))
  {
    if last.DeleteBusinessFulfilled? {
      RemoveIdAfterRemoveAll(start, ids, last.id);
    } else {
      assert ids + {} == ids;
    }
  }

  /** Without a `searchBusinesses.fulfilled`, the search results after any interleaving are the
      starting ones minus the deleted ids: no listing fetch ever reaches them. */
  lemma {:induction false} RunWithoutSearchKeepsResults(s: State, acts: seq<Action>)
    requires forall i | 0 <= i < |acts| :: !acts[i].SearchBusinessesFulfilled?
    ensures Run(s, acts).searchResults == RemoveAll(s.searchResults, DeletedIds(acts))
    decreases |acts|
  {
    if |acts| == 0 {
      RemoveAllNothing(s.searchResults);
    } else {
      var prefix, last := acts[..|acts| - 1], acts[|acts| - 1];
      assert forall i | 0 <= i < |prefix| :: prefix[i] == acts[i];
      RunWithoutSearchKeepsResults(s, prefix);
      StepSearch(Run(s, prefix), last, DeletedIds(prefix), s.searchResults);
      assert DeletedIds(acts) == DeletedIds(prefix) + (if last.DeleteBusinessFulfilled? then {last.id} else {});
    }
  }

  /** Without a `fetchBusinesses.fulfilled`, the listing is the starting one minus the deleted ids. */
  lemma {:induction false} RunWithoutFetchKeepsListing(s: State, acts: seq<Action>)
    requires forall i | 0 <= i < |acts| :: !acts[i].FetchBusinessesFulfilled?
    ensures Run(s, acts).businesses == RemoveAll(s.businesses, DeletedIds(acts))
    decreases |acts|
  {
    if |acts| == 0 {
      RemoveAllNothing(s.businesses);
    } else {
      var prefix, last := acts[..|acts| - 1], acts[|acts| - 1];
      assert forall i | 0 <= i < |prefix| :: prefix[i] == acts[i];
      RunWithoutFetchKeepsListing(s, prefix);
      StepFetch(Run(s, prefix), last, DeletedIds(prefix), s.businesses);
      assert DeletedIds(acts) == DeletedIds(prefix) + (if last.DeleteBusinessFulfilled? then {last.id} else {});
    }
  }

  /** What each action stores in `error`. */
  function ErrorWrite(a: Action): Option<Option<string>> {
    if Rejects(a) then Some(Some(a.message))
    else if Starts(a) && !a.FetchSearchHistoryPending? then Some(None)
    else if a.FetchBusinessesFulfilled? || a.SearchBusinessesFulfilled? || a.ExportBusinessesFulfilled? then Some(None)
    else if a.BusinessClearError? then Some(None)
    else None
  }

  /** What each action stores in `exportResult`. */
  function ExportResultWrite(a: Action): Option<Option<ExportResult>> {
    if a.ExportBusinessesFulfilled? then Some(Some(a.result))
    else if a.ClearExportResult? then Some(None)
    else None
  }

  /** What each action stores in `isLoading`. */
  function LoadingWrite(a: Action): Option<bool> {
    if Starts(a) then Some(true) else if Settles(a) then Some(false) else None
  }

  /** The one shared `error` holds whatever the last writer among all business thunks stored. */
  lemma {:induction false} RunErrorIsLastWrite(s: State, acts: seq<Action>)
    ensures Run(s, acts).error == LastWrite(s.error, acts, ErrorWrite)
    decreases |acts|
  {
    if |acts| > 0 {
      RunErrorIsLastWrite(s, acts[..|acts| - 1]);
    }
  }

  /** The displayed export is the last one to be fulfilled (a later failure leaves it): there is
      no request correlation. */
  lemma {:induction false} RunExportResultIsLastWrite(s: State, acts: seq<Action>)
    ensures Run(s, acts).exportResult == LastWrite(s.exportResult, acts, ExportResultWrite)
    decreases |acts|
  {
    if |acts| > 0 {
      RunExportResultIsLastWrite(s, acts[..|acts| - 1]);
    }
  }

  /** `isLoading` reflects only the last start or settlement of any business thunk. */
  lemma {:induction false} RunLoadingIsLastWrite(s: State, acts: seq<Action>)
    ensures Run(s, acts).isLoading == LastWrite(s.isLoading, acts, LoadingWrite)
    decreases |acts|
  {
    if |acts| > 0 {
      RunLoadingIsLastWrite(s, acts[..|acts| - 1]);
    }
  }

  /** Two exports in flight: the one issued first but fulfilled last is the one displayed. */
  lemma EarlierExportFulfilledLastWins(s: State, first: ExportResult, second: ExportResult)
    ensures Run(s, [ExportBusinessesPending, ExportBusinessesPending,
                    ExportBusinessesFulfilled(second), ExportBusinessesFulfilled(first)]).exportResult
         == Some(first)
  {
    var acts := [ExportBusinessesPending, ExportBusinessesPending,
                 ExportBusinessesFulfilled(second), ExportBusinessesFulfilled(first)];
    RunExportResultIsLastWrite(s, acts);
  }
}
