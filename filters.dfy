/** The event and training filter panel
    (src/components/events/filters/EventAndTrainingFilter.tsx): the sort
    options, the two "clear all" resets, and the per-field input handlers.
    Every handler passes `{ ...params, field: value }` to the setter, so each
    is a record update. */
module Filters {
  import opened Outcomes

  /** The sort every reset and every query falls back to. */
  const DefaultSort: string := "location.startTime,asc"

  /** The event search parameters the event table sends. */
  datatype EventSearchParams = EventSearchParams(
    rangeTimeType: Option<string>,
    sort: Option<string>,
    keyword: Option<string>,
    eventType: Option<string>,
    startTime: Option<string>,
    endTime: Option<string>,
    searchs: Option<seq<string>>,
    searchValues: Option<seq<string>>)

  /** The training search parameters the training table sends. */
  datatype TrainingSearchParams = TrainingSearchParams(
    rangeTimeType: Option<string>,
    sort: Option<string>,
    startTime: Option<string>,
    endTime: Option<string>,
    searchs: Option<seq<string>>,
    searchValues: Option<seq<string>>)

  // ---------------------------------------------------------- field frames

  datatype EventField = RangeTimeType | Sort | Keyword | EventType | StartTime | EndTime | Searchs | SearchValues

  /** Two event parameter records agree on one field. */
  predicate EventAgree(a: EventSearchParams, b: EventSearchParams, f: EventField) {
    match f
    case RangeTimeType => a.rangeTimeType == b.rangeTimeType
    case Sort => a.sort == b.sort
    case Keyword => a.keyword == b.keyword
    case EventType => a.eventType == b.eventType
    case StartTime => a.startTime == b.startTime
    case EndTime => a.endTime == b.endTime
    case Searchs => a.searchs == b.searchs
    case SearchValues => a.searchValues == b.searchValues
  }

  /** `b` differs from `a` at most in the fields of `changed`. */
  predicate EventSameExcept(a: EventSearchParams, b: EventSearchParams, changed: set<EventField>) {
    forall f :: f !in changed ==> EventAgree(a, b, f)
  }

  datatype TrainingField = TRangeTimeType | TSort | TStartTime | TEndTime | TSearchs | TSearchValues

  /** Two training parameter records agree on one field. */
  predicate TrainingAgree(a: TrainingSearchParams, b: TrainingSearchParams, f: TrainingField) {
    match f
    case TRangeTimeType => a.rangeTimeType == b.rangeTimeType
    case TSort => a.sort == b.sort
    case TStartTime => a.startTime == b.startTime
    case TEndTime => a.endTime == b.endTime
    case TSearchs => a.searchs == b.searchs
    case TSearchValues => a.searchValues == b.searchValues
  }

  /** `b` differs from `a` at most in the fields of `changed`. */
  predicate TrainingSameExcept(a: TrainingSearchParams, b: TrainingSearchParams, changed: set<TrainingField>) {
    forall f :: f !in changed ==> TrainingAgree(a, b, f)
  }

  // ------------------------------------------------------------- resets

  /** `clearEventFilters`. */
  function ClearEventFilters(p: EventSearchParams): (r: EventSearchParams)
    ensures r.keyword == Some("") && r.startTime.None? && r.endTime.None? && r.eventType.None?
    ensures r.sort == Some(DefaultSort)
    ensures EventSameExcept(p, r, {Keyword, StartTime, EndTime, EventType, Sort})
  {
    p.(keyword := Some(""), endTime := None, startTime := None, eventType := None, sort := Some(DefaultSort))
  }

  /** `clearTrainingFilters`. */
  function ClearTrainingFilters(p: TrainingSearchParams): (r: TrainingSearchParams)
    ensures r.startTime.None? && r.endTime.None? && r.sort == Some(DefaultSort)
    ensures r.searchs == Some(["title"]) && r.searchValues == Some(["**"])
    ensures TrainingSameExcept(p, r, {TStartTime, TEndTime, TSort, TSearchs, TSearchValues})
  {
    p.(endTime := None, startTime := None, sort := Some(DefaultSort), searchs := Some(["title"]), searchValues := Some(["**"]))
  }

  /** Clearing an already cleared panel changes nothing, and the outcome of
      a clear does not depend on the fields it resets. */
  lemma ClearIdempotent(p: EventSearchParams, q: TrainingSearchParams)
    ensures ClearEventFilters(ClearEventFilters(p)) == ClearEventFilters(p)
    ensures ClearTrainingFilters(ClearTrainingFilters(q)) == ClearTrainingFilters(q)
  {
  }

  /** Two records that agree outside the reset fields clear to the same record. */
  lemma ClearForgetsResetFields(p: EventSearchParams, p': EventSearchParams)
    requires EventSameExcept(p, p', {Keyword, StartTime, EndTime, EventType, Sort})
    ensures ClearEventFilters(p) == ClearEventFilters(p')
  {
    assert EventAgree(p, p', RangeTimeType) && EventAgree(p, p', Searchs) && EventAgree(p, p', SearchValues);
  }

  // ----------------------------------------------------- input handlers

  function SetEventKeyword(p: EventSearchParams, v: string): (r: EventSearchParams)
    ensures r.keyword == Some(v) && EventSameExcept(p, r, {Keyword})
  {
    p.(keyword := Some(v))
  }

  function SetEventType(p: EventSearchParams, v: string): (r: EventSearchParams)
    ensures r.eventType == Some(v) && EventSameExcept(p, r, {EventType})
  {
    p.(eventType := Some(v))
  }

  function SetEventStartTime(p: EventSearchParams, v: string): (r: EventSearchParams)
    ensures r.startTime == Some(v) && EventSameExcept(p, r, {StartTime})
  {
    p.(startTime := Some(v))
  }

  function SetEventEndTime(p: EventSearchParams, v: string): (r: EventSearchParams)
    ensures r.endTime == Some(v) && EventSameExcept(p, r, {EndTime})
  {
    p.(endTime := Some(v))
  }

  function SetEventSort(p: EventSearchParams, v: string): (r: EventSearchParams)
    ensures r.sort == Some(v) && EventSameExcept(p, r, {Sort})
  {
    p.(sort := Some(v))
  }

  /** The training keyword box writes a one-element `searchValues`. */
  function SetTrainingKeyword(p: TrainingSearchParams, v: string): (r: TrainingSearchParams)
    ensures r.searchValues == Some([v]) && TrainingSameExcept(p, r, {TSearchValues})
  {
    p.(searchValues := Some([v]))
  }

  function SetTrainingStartTime(p: TrainingSearchParams, v: string): (r: TrainingSearchParams)
    ensures r.startTime == Some(v) && TrainingSameExcept(p, r, {TStartTime})
  {
    p.(startTime := Some(v))
  }

  function SetTrainingEndTime(p: TrainingSearchParams, v: string): (r: TrainingSearchParams)
    ensures r.endTime == Some(v) && TrainingSameExcept(p, r, {TEndTime})
  {
    p.(endTime := Some(v))
  }

  function SetTrainingSort(p: TrainingSearchParams, v: string): (r: TrainingSearchParams)
    ensures r.sort == Some(v) && TrainingSameExcept(p, r, {TSort})
  {
    p.(sort := Some(v))
  }

  // ---------------------------------------------------- displayed values

  /** The event keyword box shows `keyword || ""`. */
  function EventKeywordShown(p: EventSearchParams): string {
    p.keyword.GetOr("")
  }

  /** The training keyword box shows `searchValues?.[0] || ""`. */
  function TrainingKeywordShown(p: TrainingSearchParams): string {
    if p.searchValues.Some? && |p.searchValues.value| > 0 then p.searchValues.value[0] else ""
  }

  /** The training sort select shows `sort || DefaultSort`. */
  function TrainingSortShown(p: TrainingSearchParams): string {
    if p.sort.Some? && p.sort.value != "" then p.sort.value else DefaultSort
  }

  /** Typing into a box shows what was typed; a cleared event box is empty,
      a cleared training box shows "**", and both sorts show the default. */
  lemma KeywordBoxesShowInput(p: EventSearchParams, q: TrainingSearchParams, v: string)
    ensures EventKeywordShown(SetEventKeyword(p, v)) == v
    ensures TrainingKeywordShown(SetTrainingKeyword(q, v)) == v
    ensures EventKeywordShown(ClearEventFilters(p)) == ""
    ensures TrainingKeywordShown(ClearTrainingFilters(q)) == "**"
    ensures TrainingSortShown(ClearTrainingFilters(q)) == DefaultSort
    ensures TrainingKeywordShown(q) == "" <==>
              q.searchValues.None? || |q.searchValues.value| == 0 || q.searchValues.value[0] == ""
  {
  }

  // ---------------------------------------------------------- sort options

  /** The five sortable fields, in the order the options list them. */
  const SortFields: seq<string> := ["title", "location.startTime", "createdAt", "lastModifiedTime", "currentRegistered"]

  /** The `value`s of `sortOptions`, in order. */
  const SortOptionValues: seq<string> := [
    "title,asc", "title,desc",
    "location.startTime,asc", "location.startTime,desc",
    "createdAt,asc", "createdAt,desc",
    "lastModifiedTime,asc", "lastModifiedTime,desc",
    "currentRegistered,asc", "currentRegistered,desc"
  ]

  /** Ten options: each field ascending then descending; all distinct; the
      default sort is among them. */
  lemma SortOptionsShape()
    ensures |SortOptionValues| == 10
    ensures forall i :: 0 <= i < 10 ==>
              SortOptionValues[i] == SortFields[i / 2] + (if i % 2 == 0 then ",asc" else ",desc")
    ensures forall i, j :: 0 <= i < j < 10 ==> SortOptionValues[i] != SortOptionValues[j]
    ensures DefaultSort in SortOptionValues
  {
    assert SortOptionValues[2] == DefaultSort;
  }
}
