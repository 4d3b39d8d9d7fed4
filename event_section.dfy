/** The public events table (src/components/EventSection.tsx): the query it
    sends, how a response or a failure lands in its state, the page-change
    handler, and the attendee column. */
module EventSection {
  import opened Outcomes
  import opened Text
  import opened Paging
  import opened Filters

  /** The fields of an event row the table reads. */
  datatype EventRow = EventRow(id: string, limitRegister: Option<int>, currentRegistered: Option<int>)

  /** The parameters `getPublicEvents` receives. */
  datatype EventQuery = EventQuery(
    page: int, size: int, rangeTimeType: Option<string>, sort: string,
    keyword: Option<string>, eventType: Option<string>,
    startTime: Option<string>, endTime: Option<string>,
    searchs: Option<seq<string>>, searchValues: Option<seq<string>>)

  /** `sort || DefaultSort`. */
  function SortOrDefault(sort: Option<string>): (s: string)
    ensures Truthy(sort) ==> s == sort.value
    ensures !Truthy(sort) ==> s == DefaultSort
  {
    if Truthy(sort) then sort.value else DefaultSort
  }

  /** The query of a fetch: the page and size asked for, the search
      parameters passed through, and the sort defaulted when empty. */
  function EventQueryFor(p: EventSearchParams, page: int, size: int): (q: EventQuery)
    ensures q.page == page && q.size == size && q.sort == SortOrDefault(p.sort)
    ensures q.rangeTimeType == p.rangeTimeType && q.keyword == p.keyword && q.eventType == p.eventType
    ensures q.startTime == p.startTime && q.endTime == p.endTime
    ensures q.searchs == p.searchs && q.searchValues == p.searchValues
  {
    EventQuery(page, size, p.rangeTimeType, SortOrDefault(p.sort), p.keyword, p.eventType,
               p.startTime, p.endTime, p.searchs, p.searchValues)
  }

  /** How `fetchEvents` leaves the table. With a page object, the rows (none
      when `_embedded` is absent, `undefined` when it holds no list), the
      total and the page number come from
      the response. When the call fails, or `page` is missing (reading
      `page.totalElements` then throws into the same catch), the rows and
      the total are cleared and the page stays. */
  function EventFetchResult(prior: Table<EventRow>, call: Settled<Envelope<EventRow>>): (t: Table<EventRow>)
    ensures call.Resolved? && call.value.page.Some? ==> t == Synced(call.value)
    ensures !(call.Resolved? && call.value.page.Some?) ==> t == Cleared(prior)
  {
    if call.Resolved? && call.value.page.Some? then Synced(call.value) else Cleared(prior)
  }

  /** Rows only ever come from a response with a page object and a list; a
      response without `_embedded` shows an empty table with the API's total;
      one whose `_embedded` holds no list leaves the rows `undefined`. */
  lemma EventFetchCases(prior: Table<EventRow>, call: Settled<Envelope<EventRow>>)
    ensures (EventFetchResult(prior, call).rows.Some? && EventFetchResult(prior, call).rows.value != []) ==>
              call.Resolved? && call.value.page.Some? && call.value.embedded.Listed?
              && EventFetchResult(prior, call).rows == Some(call.value.embedded.list)
    ensures call.Resolved? && call.value.embedded.NoEmbedded? && call.value.page.Some? ==>
              EventFetchResult(prior, call) == Table(Some([]), call.value.page.value.totalElements, call.value.page.value.number)
    ensures EventFetchResult(prior, call).rows.None? <==>
              call.Resolved? && call.value.embedded.NoList? && call.value.page.Some?
    ensures call.Rejected? ==> EventFetchResult(prior, call) == Table(Some([]), 0, prior.currentPage)
  {
  }

  /** `limitRegister && currentRegistered! >= limitRegister`: a missing or
      zero limit is never full, and a missing count is never at the limit. */
  predicate IsFull(r: EventRow) {
    r.limitRegister.Some? && r.limitRegister.value != 0
    && r.currentRegistered.Some? && r.currentRegistered.value >= r.limitRegister.value
  }

  /** The attendee text: `(currentRegistered || 0)` then ` / limit` when a
      limit is set, or ` ENDED IN` otherwise. */
  function AttendeeText(r: EventRow, t: string -> string): (s: string)
    ensures var shown := IntString(r.currentRegistered.GetOr(0));
            |shown| <= |s| && s[..|shown|] == shown
  {
    IntString(r.currentRegistered.GetOr(0))
    + (if r.limitRegister.Some? && r.limitRegister.value != 0
       then " / " + IntString(r.limitRegister.value)
       else " " + t("ENDED IN"))
  }

  /** A row with a limit shows `count / limit`, so a full row always shows its
      limit; a row without a limit is never full and shows the ended text. */
  lemma FullRowsShowTheirLimit(r: EventRow, t: string -> string)
    ensures r.limitRegister.Some? && r.limitRegister.value != 0 ==>
              AttendeeText(r, t) == IntString(r.currentRegistered.GetOr(0)) + " / " + IntString(r.limitRegister.value)
    ensures IsFull(r) ==> AttendeeText(r, t) == IntString(r.currentRegistered.value) + " / " + IntString(r.limitRegister.value)
    ensures r.limitRegister.None? || r.limitRegister == Some(0) ==>
              !IsFull(r) && AttendeeText(r, t) == IntString(r.currentRegistered.GetOr(0)) + " " + t("ENDED IN")
  {
  }

  /** The table's state; the props are constants. */
  class EventTable {
    const pageSize: int
    const searchParams: EventSearchParams
    /** `None` for `undefined`. */
    var events: Option<seq<EventRow>>
    var loading: bool
    var currentPage: int
    var totalEvents: int

    constructor (pageSize: int, searchParams: EventSearchParams)
      ensures this.pageSize == pageSize && this.searchParams == searchParams
      ensures events == Some([]) && loading && currentPage == 0 && totalEvents == 0
    {
      this.pageSize := pageSize;
      this.searchParams := searchParams;
      events := Some([]);
      loading := true;
      currentPage := 0;
      totalEvents := 0;
    }

    /** The table as a value. */
    function Shown(): Table<EventRow>
      reads this
    {
      Table(events, totalEvents, currentPage)
    }

    /** `fetchEvents(page, size)` given how `getPublicEvents` settled;
        `query` is what it was sent. */
    method FetchEvents(page: int, size: int, call: Settled<Envelope<EventRow>>) returns (query: EventQuery)
      modifies this
      ensures query == EventQueryFor(searchParams, page, size)
      ensures Shown() == EventFetchResult(old(Shown()), call)
      ensures !loading
      ensures RenderThrows() <==> call.Resolved? && call.value.embedded.NoList? && call.value.page.Some?
    {
      loading := true;
      query := EventQueryFor(searchParams, page, size);
      if call.Resolved? {
        var data := call.value;
        events := EmbeddedOrEmpty(data.embedded);
        if data.page.Some? {
          totalEvents := data.page.value.totalElements;
          currentPage := data.page.value.number;
        } else {
          events := Some([]);
          totalEvents := 0;
        }
      } else {
        events := Some([]);
        totalEvents := 0;
      }
      loading := false;
    }

    /** The guard of the "see all" link reads `events.length` once loading
        is over, so an `undefined` list makes the render throw. */
    predicate RenderThrows()
      reads this
    {
      !loading && events.None?
    }

    /** `handleTableChange`: the fetch it starts, if any. */
    method HandleTableChange(current: int, requestedSize: Option<int>) returns (fetch: Option<PageRequest>)
      ensures fetch == TableChange(currentPage, pageSize, current, requestedSize)
    {
      var newPage := current - 1;
      var newPageSize := if requestedSize.Some? && requestedSize.value != 0 then requestedSize.value else pageSize;
      if newPage != currentPage || newPageSize != pageSize {
        fetch := Some(PageRequest(newPage, newPageSize));
      } else {
        fetch := None;
      }
    }
  }
}
