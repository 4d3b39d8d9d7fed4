/** What the paged tables share (src/components/EventSection.tsx,
    src/components/TrainingSection.tsx,
    src/components/profiles/PointHistoryCard.tsx): the API's page envelope,
    the mapping between the table's 1-indexed pages and the API's 0-indexed
    ones, and the rule deciding whether a table change refetches. */
module Paging {
  import opened Outcomes

  /** The `page` object of an API response. */
  datatype PageInfo = PageInfo(size: int, totalElements: int, number: int)

  /** The `_embedded` member of a response: missing, present without the
      list key, or holding the list. */
  datatype Embedded<T> = NoEmbedded | NoList | Listed(list: seq<T>)

  /** A paged response: its `_embedded` member and the `page` object (absent
      when missing). */
  datatype Envelope<T> = Envelope(embedded: Embedded<T>, page: Option<PageInfo>)

  /** `_embedded ? _embedded.list : []`, as the event and training tables
      read it: `undefined` (`None`) when `_embedded` holds no list. */
  function EmbeddedOrEmpty<T>(e: Embedded<T>): (rows: Option<seq<T>>)
    ensures rows.None? <==> e.NoList?
    ensures e.Listed? ==> rows == Some(e.list)
    ensures e.NoEmbedded? ==> rows == Some([])
  {
    match e
    case NoEmbedded => Some([])
    case NoList => None
    case Listed(list) => Some(list)
  }

  /** `_embedded?.list || []`, as the point history and the update-request
      modal read it: the list when there is one, else no rows. */
  function ListOrEmpty<T>(e: Embedded<T>): (rows: seq<T>)
    ensures e.Listed? ==> rows == e.list
    ensures !e.Listed? ==> rows == []
  {
    if e.Listed? then e.list else []
  }

  /** The two readings agree except when `_embedded` holds no list, where the
      conditional one gives `undefined` and the guarded one no rows. */
  lemma ReadingsAgreeUnlessNoList<T>(e: Embedded<T>)
    ensures EmbeddedOrEmpty(e) == Some(ListOrEmpty(e)) <==> !e.NoList?
  {
  }

  /** What a table shows: its rows (`None` for `undefined`), the `total` given
      to the pagination, and the 0-indexed `currentPage`. */
  datatype Table<T> = Table(rows: Option<seq<T>>, total: int, currentPage: int)

  /** A fetch of one page. */
  datatype PageRequest = PageRequest(page: int, size: int)

  /** `current: currentPage + 1`: the pagination is 1-indexed. */
  function DisplayedPage(currentPage: int): int {
    currentPage + 1
  }

  /** `pagination.current! - 1`: the API page of a clicked table page. */
  function ApiPage(current: int): int {
    current - 1
  }

  /** The two mappings are inverse to each other. */
  lemma PageMappingRoundTrip(currentPage: int, current: int)
    ensures ApiPage(DisplayedPage(currentPage)) == currentPage
    ensures DisplayedPage(ApiPage(current)) == current
  {
  }

  /** `pagination.pageSize || pageSize`: an absent or zero size keeps the prop. */
  function NewPageSize(requested: Option<int>, pageSize: int): (s: int)
    ensures requested.None? || requested == Some(0) ==> s == pageSize
    ensures requested.Some? && requested.value != 0 ==> s == requested.value
  {
    if requested.Some? && requested.value != 0 then requested.value else pageSize
  }

  /** `handleTableChange` of the event and training tables: refetch the
      clicked page with the new size when either differs from the shown
      page and the size prop. */
  function TableChange(currentPage: int, pageSize: int, current: int, requested: Option<int>): (r: Option<PageRequest>)
    ensures r.Some? <==> ApiPage(current) != currentPage || NewPageSize(requested, pageSize) != pageSize
    ensures r.Some? ==> r.value.page == ApiPage(current) && r.value.size == NewPageSize(requested, pageSize)
  {
    var newPage := ApiPage(current);
    var newPageSize := NewPageSize(requested, pageSize);
    if newPage != currentPage || newPageSize != pageSize then Some(PageRequest(newPage, newPageSize)) else None
  }

  /** Clicking the page already shown, at the same size, refetches nothing;
      clicking any other page fetches exactly that page. */
  lemma TableChangeOnlyOnChange(currentPage: int, pageSize: int, current: int)
    ensures TableChange(currentPage, pageSize, DisplayedPage(currentPage), None) == None
    ensures TableChange(currentPage, pageSize, DisplayedPage(currentPage), Some(pageSize)) == None
    ensures current != DisplayedPage(currentPage) ==>
              TableChange(currentPage, pageSize, current, None) == Some(PageRequest(current - 1, pageSize))
  {
  }

  /** `handleTableChange` of the point history: only the page is compared;
      the size is fixed. */
  function PageChange(currentPage: int, current: int): (r: Option<int>)
    ensures r.Some? <==> current != DisplayedPage(currentPage)
    ensures r.Some? ==> DisplayedPage(r.value) == current
  {
    var newPage := ApiPage(current);
    if newPage != currentPage then Some(newPage) else None
  }

  /** A table whose fetch applied the page object: the rows of the response
      as the event and training tables read them, and the API's total and
      page number. */
  function Synced<T>(env: Envelope<T>): (t: Table<T>)
    requires env.page.Some?
    ensures t.rows == EmbeddedOrEmpty(env.embedded)
    ensures t.total == env.page.value.totalElements
    ensures DisplayedPage(t.currentPage) == env.page.value.number + 1
  {
    Table(EmbeddedOrEmpty(env.embedded), env.page.value.totalElements, env.page.value.number)
  }

  /** After a failed fetch: no rows, a zero total, and the page left as it was. */
  function Cleared<T>(prior: Table<T>): (t: Table<T>)
    ensures t.rows == Some([]) && t.total == 0 && t.currentPage == prior.currentPage
  {
    Table(Some([]), 0, prior.currentPage)
  }

  /** A click followed by a fetch whose page number is the requested page
      leaves the clicked page displayed. */
  lemma FetchedPageIsDisplayed<T>(currentPage: int, pageSize: int, current: int, requested: Option<int>, env: Envelope<T>)
    requires TableChange(currentPage, pageSize, current, requested).Some?
    requires env.page.Some? && env.page.value.number == TableChange(currentPage, pageSize, current, requested).value.page
    ensures DisplayedPage(Synced(env).currentPage) == current
  {
  }
}
