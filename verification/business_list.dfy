/** The decision logic of the business list: which collection is shown, which fetch is issued,
    which view is rendered, the table cells, pagination controls and the confirmed delete. */
module BusinessList {
  import opened Common
  import opened Domain
  import opened Actions
  import BusinessSlice

  /** `keyword && location`: both search parameters are non-empty. */
  predicate Scoped(keyword: string, location: string) {
    keyword != "" && location != ""
  }

  /** The collection the list displays. */
  function DisplayData(s: BusinessSlice.State, keyword: string, location: string): (d: seq<Business>)
    ensures Scoped(keyword, location) ==> d == s.searchResults
    ensures !Scoped(keyword, location) ==> d == s.businesses
  {
    if Scoped(keyword, location) then s.searchResults else s.businesses
  }

  // ---------------------------------------------------------------- fetch choice

  /** The argument the list's effect passes to `fetchBusinesses`. */
  function FetchOnChange(keyword: string, location: string, pagination: Pagination): (args: BusinessSlice.FetchArgs)
    ensures Scoped(keyword, location) ==>
      BusinessSlice.FetchQuery(args) == [
        BusinessSlice.QueryParam("page", BusinessSlice.Num(1)),
        BusinessSlice.QueryParam("limit", BusinessSlice.Num(50)),
        BusinessSlice.QueryParam("keyword", BusinessSlice.Text(keyword)),
        BusinessSlice.QueryParam("location", BusinessSlice.Text(location))]
    ensures !Scoped(keyword, location) ==>
      BusinessSlice.FetchQuery(args) == [
        BusinessSlice.QueryParam("page", BusinessSlice.Num(pagination.page)),
        BusinessSlice.QueryParam("limit", BusinessSlice.Num(50))]
  {
    if Scoped(keyword, location) then BusinessSlice.FetchArgs(None, None, Some(keyword), Some(location))
    else BusinessSlice.FetchArgs(Some(pagination.page), None, None, None)
  }

  /** The response to the fetch issued for scoped parameters lands in `businesses`, so it never
      changes what the scoped list displays. */
  lemma ScopedFetchLeavesDisplay(s: BusinessSlice.State, keyword: string, location: string, p: FetchPayload)
    requires Scoped(keyword, location)
    ensures DisplayData(BusinessSlice.Reduce(s, FetchBusinessesFulfilled(p)), keyword, location)
         == DisplayData(s, keyword, location)
  {
  }

  /** The argument a page button passes to `fetchBusinesses`. */
  function PageChange(newPage: int): (args: BusinessSlice.FetchArgs)
    ensures BusinessSlice.FetchQuery(args) == [
      BusinessSlice.QueryParam("page", BusinessSlice.Num(newPage)),
      BusinessSlice.QueryParam("limit", BusinessSlice.Num(50))]
  {
    BusinessSlice.FetchArgs(Some(newPage), None, None, None)
  }

  // ---------------------------------------------------------------- table cells

  /** `/^https?:\/\//i`: `c` equals the lower-case letter `lower`, ignoring ASCII case. */
  predicate LetterMatches(c: char, lower: char)
    requires 'a' <= lower <= 'z'
  {
    c == lower || c as int == lower as int - 32
  }

  predicate SchemeSeparatorAt(w: string, i: nat)
    requires i + 3 <= |w|
  {
    w[i] == ':' && w[i + 1] == '/' && w[i + 2] == '/'
  }

  /** The regular expression `/^https?:\/\//i`, matched character by character. */
  predicate MatchesHttpScheme(w: string) {
    && |w| >= 7
    && LetterMatches(w[0], 'h') && LetterMatches(w[1], 't') && LetterMatches(w[2], 't') && LetterMatches(w[3], 'p')
    && (SchemeSeparatorAt(w, 4) || (|w| >= 8 && LetterMatches(w[4], 's') && SchemeSeparatorAt(w, 5)))
  }

  /** ASCII lower-casing, the only case folding the regular expression's `i` flag does here. */
  function LowerAscii(c: char): (l: char)
    ensures 'A' <= c <= 'Z' ==> l as int == c as int + 32
    ensures !('A' <= c <= 'Z') ==> l == c
  {
    if 'A' <= c <= 'Z' then (c as int + 32) as char else c
  }

  /** Reference: `w` starts with the lower-case `prefix`, ignoring ASCII case. */
  predicate StartsWithIgnoringCase(w: string, prefix: string) {
    |prefix| <= |w| && forall i | 0 <= i < |prefix| :: LowerAscii(w[i]) == prefix[i]
  }

  /** The "Website" column: a truthy URL with an `http://` or `https://` scheme, in any case. */
  predicate HasWebsite(website: Option<string>) {
    Truthy(website) && MatchesHttpScheme(website.value)
  }

  lemma HasWebsiteIsSchemePrefix(website: Option<string>)
    ensures HasWebsite(website) <==>
      website.Some? && (StartsWithIgnoringCase(website.value, "http://") || StartsWithIgnoringCase(website.value, "https://"))
  {
    if website.Some? {
      var w := website.value;
      if StartsWithIgnoringCase(w, "http://") {
        assert LowerAscii(w[0]) == 'h' && LowerAscii(w[1]) == 't' && LowerAscii(w[2]) == 't' && LowerAscii(w[3]) == 'p';
        assert LowerAscii(w[4]) == ':' && LowerAscii(w[5]) == '/' && LowerAscii(w[6]) == '/';
      }
      if StartsWithIgnoringCase(w, "https://") {
        assert LowerAscii(w[0]) == 'h' && LowerAscii(w[1]) == 't' && LowerAscii(w[2]) == 't' && LowerAscii(w[3]) == 'p';
        assert LowerAscii(w[4]) == 's' && LowerAscii(w[5]) == ':' && LowerAscii(w[6]) == '/' && LowerAscii(w[7]) == '/';
      }
    }
  }

  /** A website without a scheme still gets the "Visit Website" link but is counted as "No". */
  lemma LinkWithoutWebsite(b: Business)
    requires b.website == Some("www.example.com")
    ensures RowOf(b).visitLink && RowOf(b).website == "No"
  {
  }

  /** `value || 'N/A'`: the cell is never blank. */
  function OrNotAvailable(value: Option<string>): (cell: string)
    ensures cell != ""
    ensures Truthy(value) ==> cell == value.value
    ensures !Truthy(value) ==> cell == "N/A"
  {
    if Truthy(value) then value.value else "N/A"
  }

  datatype Row = Row(id: string, name: string, visitLink: bool, address: string, phone: string, website: string, category: string)

  function RowOf(b: Business): (row: Row)
    ensures row.id == b.id && row.name == b.name && row.address == b.address
    ensures row.visitLink <==> Truthy(b.website)
    ensures row.website == "Yes" <==> HasWebsite(b.website)
    ensures row.website == "Yes" || row.website == "No"
    ensures row.phone == OrNotAvailable(b.phone) && row.category == OrNotAvailable(b.category)
    ensures row.phone != "" && row.category != ""
  {
    Row(b.id, b.name, Truthy(b.website), b.address, OrNotAvailable(b.phone),
        if HasWebsite(b.website) then "Yes" else "No", OrNotAvailable(b.category))
  }

  function Rows(d: seq<Business>): (rows: seq<Row>)
    ensures |rows| == |d|
    ensures forall i | 0 <= i < |d| :: rows[i] == RowOf(d[i])
  {
    seq(|d|, i requires 0 <= i < |d| => RowOf(d[i]))
  }

  // ---------------------------------------------------------------- pagination controls

  datatype Controls = Controls(page: int, pages: int, previousPage: int, previousDisabled: bool, nextPage: int, nextDisabled: bool)

  /** The controls appear only when neither parameter is set and there is more than one page. */
  function PaginationControls(keyword: string, location: string, p: Pagination): (c: Option<Controls>)
    ensures c.Some? <==> keyword == "" && location == "" && p.pages > 1
    ensures c.Some? ==> c.value.page == p.page && c.value.pages == p.pages
    ensures c.Some? ==> (c.value.previousDisabled <==> p.page == 1) && (c.value.nextDisabled <==> p.page == p.pages)
    ensures c.Some? ==> c.value.previousPage == p.page - 1 && c.value.nextPage == p.page + 1
  {
    if keyword == "" && location == "" && p.pages > 1 then
      Some(Controls(p.page, p.pages, p.page - 1, p.page == 1, p.page + 1, p.page == p.pages))
    else None
  }

  /** Within the server's page range, an enabled button never requests a page outside it. */
  lemma EnabledButtonsStayInRange(p: Pagination)
    requires 1 <= p.page <= p.pages && p.pages > 1
    ensures var c := PaginationControls("", "", p).value;
      && (!c.previousDisabled ==> 1 <= c.previousPage <= p.pages)
      && (!c.nextDisabled ==> 1 <= c.nextPage <= p.pages)
  {
  }

  /** "Next" is disabled only on equality: past the last page it stays enabled and goes further. */
  lemma NextEnabledPastLastPage(p: Pagination)
    requires p.pages > 1 && p.page > p.pages
    ensures var c := PaginationControls("", "", p).value;
      !c.nextDisabled && c.nextPage > p.pages
  {
  }

  // ---------------------------------------------------------------- view

  datatype Title = ScopedTitle(keyword: string, location: string) | AllBusinesses

  function TitleFor(keyword: string, location: string): Title {
    if Scoped(keyword, location) then ScopedTitle(keyword, location) else AllBusinesses
  }

  /** With exactly one parameter set, neither the scoped header nor the controls appear. */
  lemma OneParamShowsNeither(keyword: string, location: string, s: BusinessSlice.State)
    requires (keyword == "") != (location == "")
    ensures TitleFor(keyword, location) == AllBusinesses
    ensures PaginationControls(keyword, location, s.pagination).None?
    ensures var v := Render(s, keyword, location); v.Table? ==> v.title == AllBusinesses && v.controls.None?
  {
  }

  datatype View =
    | Spinner
    | ErrorPanel(message: string)
    | EmptyMessage
    | Table(title: Title, count: nat, rows: seq<Row>, controls: Option<Controls>)

  /** The render branches, in the order the component tries them. */
  function Render(s: BusinessSlice.State, keyword: string, location: string): (v: View)
    ensures var d := DisplayData(s, keyword, location);
      && (v.Spinner? <==> s.isLoading && |d| == 0)
      && (v.ErrorPanel? <==> !(s.isLoading && |d| == 0) && Truthy(s.error))
      && (v.ErrorPanel? ==> v.message == s.error.value)
      && (v.EmptyMessage? <==> !s.isLoading && !Truthy(s.error) && |d| == 0)
      && (v.Table? <==> |d| > 0 && !Truthy(s.error))
      && (v.Table? ==> v.count == |v.rows| == |d| && forall i | 0 <= i < |d| :: v.rows[i] == RowOf(d[i]))
      && (v.Table? ==> v.title == TitleFor(keyword, location)
                       && v.controls == PaginationControls(keyword, location, s.pagination))
  {
    var d := DisplayData(s, keyword, location);
    if s.isLoading && |d| == 0 then Spinner
    else if Truthy(s.error) then ErrorPanel(s.error.value)
    else if |d| == 0 then EmptyMessage
    else Table(TitleFor(keyword, location), |d|, Rows(d), PaginationControls(keyword, location, s.pagination))
  }

  // ---------------------------------------------------------------- delete

  /** The id handed to `deleteBusiness`, only when the confirmation dialog returned true. */
  function HandleDelete(id: string, confirmed: bool): (request: Option<string>)
    ensures request.Some? <==> confirmed
    ensures request.Some? ==> request.value == id
  {
    if confirmed then Some(id) else None
  }

  /** After a confirmed delete succeeds, no row for that id is displayed in either mode. */
  lemma ConfirmedDeleteLeavesNoRow(s: BusinessSlice.State, id: string, keyword: string, location: string)
    ensures var r := BusinessSlice.Reduce(s, DeleteBusinessFulfilled(HandleDelete(id, true).value));
      forall b | b in DisplayData(r, keyword, location) :: b.id != id
  {
  }
}
