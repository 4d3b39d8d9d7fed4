/** The public trainings table (src/components/TrainingSection.tsx): the
    wildcard wrapping of the search values, the query, how a response lands in
    the table, the page-change handler and the fullness rule. */
module TrainingSection {
  import opened Outcomes
  import opened Text
  import opened Paging
  import opened Filters
  import EventSection

  /** A training row carries the same attendee fields as an event row, and
      the attendee column renders them with the same rule. */
  type TrainingRow = EventSection.EventRow

  /** `"*" + value.trim() + "*"`: the value between two wildcards. */
  function Wrap(v: string): string {
    "*" + Trim(v) + "*"
  }

  /** `searchValues?.map(...)`: absent stays absent. */
  function WrapSearchValues(values: Option<seq<string>>): (r: Option<seq<string>>)
    ensures r.None? <==> values.None?
    ensures r.Some? ==> |r.value| == |values.value|
  {
    match values
    case None => None
    case Some(vs) => Some(seq(|vs|, i requires 0 <= i < |vs| => Wrap(vs[i])))
  }

  /** Every wrapped value can be read back: the characters between its two
      wildcards are the trimmed value at the same position. */
  lemma WrapReadBack(values: seq<string>, i: int)
    requires 0 <= i < |values|
    ensures var w := WrapSearchValues(Some(values)).value[i];
            |w| >= 2 && w[0] == '*' && w[|w| - 1] == '*' && w[1..|w| - 1] == Trim(values[i])
  {
    var w := WrapSearchValues(Some(values)).value[i];
    assert w == "*" + Trim(values[i]) + "*";
  }

  /** A value with no whitespace at either end is wrapped as it is. */
  lemma WrapOfSolid(v: string)
    requires v != [] && !IsJsWhitespace(v[0]) && !IsJsWhitespace(v[|v| - 1])
    ensures Wrap(v) == "*" + v + "*"
  {
    TrimKeepsSolidEnds(v);
  }

  /** A single value is sent as its one wrapped form. */
  lemma WrapSingle(v: string)
    ensures WrapSearchValues(Some([v])) == Some([Wrap(v)])
  {
    var r := WrapSearchValues(Some([v])).value;
    assert |r| == 1 && r[0] == Wrap([v][0]);
    assert r == [Wrap(v)];
  }

  /** After "clear all" the box holds "**" and the query sends "****". */
  lemma ClearedSearchIsQuadrupleStar(p: TrainingSearchParams)
    ensures WrapSearchValues(ClearTrainingFilters(p).searchValues) == Some(["****"])
  {
    var v := ClearTrainingFilters(p).searchValues.value[0];
    assert ClearTrainingFilters(p).searchValues == Some([v]);
    WrapSingle(v);
    WrapOfSolid(v);
    assert "*" + v + "*" == "****";
  }

  /** The parameters `getPublicTraining` receives. */
  datatype TrainingQuery = TrainingQuery(
    page: int, size: int, rangeTimeType: Option<string>, sort: string,
    startTime: Option<string>, endTime: Option<string>,
    searchs: Option<seq<string>>, searchValues: Option<seq<string>>)

  function TrainingQueryFor(p: TrainingSearchParams, page: int, size: int): (q: TrainingQuery)
    ensures q.page == page && q.size == size && q.sort == EventSection.SortOrDefault(p.sort)
    ensures q.rangeTimeType == p.rangeTimeType && q.startTime == p.startTime && q.endTime == p.endTime
    ensures q.searchs == p.searchs && q.searchValues == WrapSearchValues(p.searchValues)
  {
    TrainingQuery(page, size, p.rangeTimeType, EventSection.SortOrDefault(p.sort),
                  p.startTime, p.endTime, p.searchs, WrapSearchValues(p.searchValues))
  }

  /** `fetchTraining` as written: after setting the rows, line 74 reads
      `data._embedded.trainingWrapperDtoList` unguarded, so a response
      without `_embedded` throws into the catch before the total and the
      page are read, exactly like a failed call or a missing `page`. An
      `_embedded` without the list only logs `undefined`. */
  function TrainingFetchAsWritten(prior: Table<TrainingRow>, call: Settled<Envelope<TrainingRow>>): (t: Table<TrainingRow>)
    ensures call.Resolved? && !call.value.embedded.NoEmbedded? && call.value.page.Some? ==> t == Synced(call.value)
    ensures !(call.Resolved? && !call.value.embedded.NoEmbedded? && call.value.page.Some?) ==> t == Cleared(prior)
  {
    if call.Resolved? && !call.value.embedded.NoEmbedded? && call.value.page.Some? then Synced(call.value)
    else Cleared(prior)
  }

  /** `fetchTraining` as its `[]` fallback for a missing `_embedded` shows it
      was meant: the same rule as the event table. */
  function TrainingFetchResult(prior: Table<TrainingRow>, call: Settled<Envelope<TrainingRow>>): (t: Table<TrainingRow>)
    ensures call.Resolved? && call.value.page.Some? ==> t == Synced(call.value)
    ensures !(call.Resolved? && call.value.page.Some?) ==> t == Cleared(prior)
  {
    if call.Resolved? && call.value.page.Some? then Synced(call.value) else Cleared(prior)
  }

  /** The two agree except on a response with a page object but no
      `_embedded`, the one case the fallback was written for. */
  lemma AsWrittenDiffersOnlyWithoutEmbedded(prior: Table<TrainingRow>, call: Settled<Envelope<TrainingRow>>)
    ensures TrainingFetchAsWritten(prior, call) != TrainingFetchResult(prior, call) ==>
              call.Resolved? && call.value.embedded.NoEmbedded? && call.value.page.Some?
  {
  }

  /** Asking for page 3 (shown as page 4) when 12 trainings fill two pages of
      10: the API answers with no `_embedded` and a page object. As written,
      the total becomes 0 and the table stays on the previous page 2;
      intended is the total 12 and page 3, from which the pagination leads back. */
  lemma EmptyPageLosesTotal()
    ensures var prior := Table(Some([]), 5, 2);
            var call := Resolved(Envelope(NoEmbedded, Some(PageInfo(10, 12, 3))));
            && TrainingFetchAsWritten(prior, call) == Table(Some([]), 0, 2)
            && TrainingFetchResult(prior, call) == Table(Some([]), 12, 3)
  {
  }

  /** The table's state; the props are constants. It follows the corrected
      fetch rule. */
  class TrainingTable {
    const pageSize: int
    const searchParams: TrainingSearchParams
    /** `None` for `undefined`. */
    var trainings: Option<seq<TrainingRow>>
    var loading: bool
    var currentPage: int
    var totalTrainings: int

    constructor (pageSize: int, searchParams: TrainingSearchParams)
      ensures this.pageSize == pageSize && this.searchParams == searchParams
      ensures trainings == Some([]) && loading && currentPage == 0 && totalTrainings == 0
    {
      this.pageSize := pageSize;
      this.searchParams := searchParams;
      trainings := Some([]);
      loading := true;
      currentPage := 0;
      totalTrainings := 0;
    }

    function Shown(): Table<TrainingRow>
      reads this
    {
      Table(trainings, totalTrainings, currentPage)
    }

    /** `fetchTraining(page, size)` given how `getPublicTraining` settled. */
    method FetchTraining(page: int, size: int, call: Settled<Envelope<TrainingRow>>) returns (query: TrainingQuery)
      modifies this
      ensures query == TrainingQueryFor(searchParams, page, size)
      ensures Shown() == TrainingFetchResult(old(Shown()), call)
      ensures !loading
    {
      loading := true;
      query := TrainingQueryFor(searchParams, page, size);
      if call.Resolved? && call.value.page.Some? {
        var data := call.value;
        trainings := EmbeddedOrEmpty(data.embedded);
        totalTrainings := data.page.value.totalElements;
        currentPage := data.page.value.number;
      } else {
        trainings := Some([]);
        totalTrainings := 0;
      }
      loading := false;
    }

    /** `handleTableChange`: the fetch it starts, if any. */
    method HandleTableChange(current: int, requestedSize: Option<int>) returns (fetch: Option<PageRequest>)
      ensures fetch == TableChange(currentPage, pageSize, current, requestedSize)
    {
      var newPage := current - 1;
      var newPageSize := if requestedSize.Some? && requestedSize.value != 0 then requestedSize.value else pageSize;
      if newPage != currentPage || newPageSize != pageSize {
        fetch := Some(PageRequest(newPage, newPageSize));
      } else {
        fetch := None;
      }
    }
  }
}
