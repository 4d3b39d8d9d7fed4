/** The point history card of a profile
    (src/components/profiles/PointHistoryCard.tsx): only the profile's owner
    fetches, five rows a page, newest reset first; a response without a page
    object counts its own rows. */
module PointHistory {
  import opened Outcomes
  import opened Paging

  /** The fields of a point history row the model carries. */
  datatype PointRow = PointRow(id: string, point: int)

  /** The history kinds of a query; the card always asks for all of them. */
  datatype HistoryKind = AllKinds

  /** The parameters `getMyPointHistory` receives. */
  datatype PointQuery = PointQuery(page: int, size: int, sort: string, kind: HistoryKind)

  const PageSize: int := 5
  const NewestFirst: string := "resetTime,desc"

  /** `user?.id === userId` for the parsed stored user: a missing user or a
      user without an id does not own any profile. */
  predicate IsOwner(storedId: Option<string>, userId: string) {
    storedId == Some(userId)
  }

  /** How a settled `getMyPointHistory` call leaves the card. The rows are the
      listed ones or none; with a page object the total and the page come
      from it, without one the total is the number of rows and the page is
      the first. A failed call clears the rows and the total and keeps the page. */
  function PointFetchResult(prior: Table<PointRow>, call: Settled<Envelope<PointRow>>): (t: Table<PointRow>)
    ensures call.Rejected? ==> t == Cleared(prior)
    ensures call.Resolved? ==> t.rows == Some(ListOrEmpty(call.value.embedded))
    ensures call.Resolved? && call.value.page.Some? ==>
              t.total == call.value.page.value.totalElements && t.currentPage == call.value.page.value.number
    ensures call.Resolved? && call.value.page.None? ==> t.total == |ListOrEmpty(call.value.embedded)| && t.currentPage == 0
  {
    match call
    case Rejected => Cleared(prior)
    case Resolved(data) =>
      var list := ListOrEmpty(data.embedded);
      if data.page.Some? then Table(Some(list), data.page.value.totalElements, data.page.value.number)
      else Table(Some(list), |list|, 0)
  }

  /** Unlike the event and training tables, a response without a page object
      still shows its rows, and its total never falls short of them. */
  lemma PagelessResponseKeepsRows(prior: Table<PointRow>, rows: seq<PointRow>)
    ensures var t := PointFetchResult(prior, Resolved(Envelope(Listed(rows), None)));
            t.rows == Some(rows) && t.total == |rows| && DisplayedPage(t.currentPage) == 1
  {
  }

  /** The card's state; the profile id and the ownership are fixed per render. */
  class PointHistoryCard {
    const userId: string
    const isOwner: bool
    var pointHistories: seq<PointRow>
    var currentPage: int
    var totalElements: int
    var loading: bool

    constructor (userId: string, storedId: Option<string>)
      ensures this.userId == userId && isOwner == IsOwner(storedId, userId)
      ensures pointHistories == [] && currentPage == 0 && totalElements == 0 && !loading
    {
      this.userId := userId;
      isOwner := IsOwner(storedId, userId);
      pointHistories := [];
      currentPage := 0;
      totalElements := 0;
      loading := false;
    }

    function Shown(): Table<PointRow>
      reads this
    {
      Table(Some(pointHistories), totalElements, currentPage)
    }

    /** `fetchMyPointHistories(page)`: nothing for a visitor; for the owner,
        the query sent and the new table. */
    method FetchMyPointHistories(page: int, call: Settled<Envelope<PointRow>>) returns (query: Option<PointQuery>)
      modifies this
      ensures !isOwner ==> query.None? && Shown() == old(Shown()) && loading == old(loading)
      ensures isOwner ==> query == Some(PointQuery(page, PageSize, NewestFirst, AllKinds))
      ensures isOwner ==> Shown() == PointFetchResult(old(Shown()), call) && !loading
    {
      if !isOwner {
        return None;
      }
      loading := true;
      query := Some(PointQuery(page, PageSize, NewestFirst, AllKinds));
      match call {
        case Rejected =>
          pointHistories := [];
          totalElements := 0;
        case Resolved(data) =>
          var list := ListOrEmpty(data.embedded);
          pointHistories := list;
          if data.page.Some? {
            totalElements := data.page.value.totalElements;
            currentPage := data.page.value.number;
          } else {
            totalElements := |list|;
            currentPage := 0;
          }
      }
      loading := false;
    }

    /** `handleTableChange`: the page to fetch, when the clicked page is not
        the one shown. The size is fixed. */
    method HandleTableChange(current: int) returns (fetch: Option<int>)
      ensures fetch == PageChange(currentPage, current)
    {
      var newPage := current - 1;
      if newPage != currentPage {
        fetch := Some(newPage);
      } else {
        fetch := None;
      }
    }

    /** The layout effect: the first page is fetched exactly for the owner. */
    method Mount() returns (fetch: Option<int>)
      ensures fetch.Some? <==> isOwner
      ensures fetch.Some? ==> fetch.value == 0
    {
      if isOwner {
        fetch := Some(0);
      } else {
        fetch := None;
      }
    }
  }
}
