/** The modal in which a user asks to change their e-mail and user types
    (src/components/profiles/SelfUserUpdateRequestModal.tsx): the request
    limit, how the list of earlier requests is loaded, how a new request and
    a deletion are answered, and the labels of a request's types. */
module UpdateRequestModal {
  import opened Outcomes
  import opened Text
  import opened Paging
  import opened UserTypes
  import AllowedParticipants

  /** An earlier request, as far as the model reads it. */
  datatype RequestRow = RequestRow(id: string, email: string)

  /** The parameters `getUpdateRequests` receives: always the five newest. */
  datatype RequestQuery = RequestQuery(size: int, sort: string)

  const RequestListQuery: RequestQuery := RequestQuery(5, "createdAt,desc")

  /** The default of the `initSize` prop. */
  const DefaultInitSize: int := 5

  /** The answer of `createUpdateRequest`: an error body has a `detail` and a
      `title`. */
  datatype CreateResponse = CreateResponse(detail: Option<string>, title: Option<string>)

  /** `res.detail && res.title`: an answer is an error only when both are
      non-empty, so a body with only one of them counts as success. */
  predicate IsCreateError(res: CreateResponse) {
    Truthy(res.detail) && Truthy(res.title)
  }

  datatype Toast = RequestSent | RequestFailed(detail: string) | Deleted | DeleteFailed

  /** `disabled`: the limit is reached once the user has as many requests as
      the modal's size. */
  predicate LimitReached(totalElements: int, initSize: int) {
    totalElements >= initSize
  }

  // ------------------------------------------------------------ type labels

  /** `options.filter(o => types.includes(o.value)).map(o => o.label)`. */
  function IncludedLabels(options: seq<Flag>, types: seq<bv32>): (r: seq<string>)
    ensures |r| <= |options|
  {
    if options == [] then []
    else
      var last := options[|options| - 1];
      IncludedLabels(options[..|options| - 1], types) + (if last.value in types then [last.name] else [])
  }

  /** The type column: the labels of the decoded types joined with ", ";
      empty exactly when none of the four user types was decoded. */
  function TypeLabels(types: seq<bv32>): (r: string)
    ensures r == "" <==> Student !in types && Member !in types && Lecturer !in types && PostStudent !in types
  {
    IncludedLabelsSpelledOut(types);
    Join(IncludedLabels(UserTypeOptions, types), ", ")
  }

  /** The labels in option order: a student, a member, a lecturer and a
      post-graduate label, each present exactly when its flag is among the
      decoded types, whatever the order or repetitions of that list. */
  lemma IncludedLabelsSpelledOut(types: seq<bv32>)
    ensures IncludedLabels(UserTypeOptions, types) ==
              (if Student in types then ["Sinh viên"] else [])
            + (if Member in types then ["Hội viên"] else [])
            + (if Lecturer in types then ["Giảng viên"] else [])
            + (if PostStudent in types then ["Nghiên cứu sinh"] else [])
  {
    var o := UserTypeOptions;
    var a, b, c, d := o[0], o[1], o[2], o[3];
    assert a == Flag("Sinh viên", Student) && b == Flag("Hội viên", Member);
    assert c == Flag("Giảng viên", Lecturer) && d == Flag("Nghiên cứu sinh", PostStudent);
    IncludedLabelsSnoc([], a, types);
    assert [] + [a] == [a];
    IncludedLabelsSnoc([a], b, types);
    assert [a] + [b] == [a, b];
    IncludedLabelsSnoc([a, b], c, types);
    assert [a, b] + [c] == [a, b, c];
    IncludedLabelsSnoc([a, b, c], d, types);
    assert [a, b, c] + [d] == o;
  }

  /** Appending an option appends its label when its value is listed. */
  lemma IncludedLabelsSnoc(options: seq<Flag>, f: Flag, types: seq<bv32>)
    ensures IncludedLabels(options + [f], types)
            == IncludedLabels(options, types) + (if f.value in types then [f.name] else [])
  {
    assert (options + [f])[..|options|] == options;
  }

  /** When the decoded list holds exactly the options whose bit is set in a
      mask, the labels are those of the training page's user-type line for
      that mask. */
  lemma {:induction false} IncludedLabelsMatchMask(options: seq<Flag>, types: seq<bv32>, mask: bv32)
    requires forall i :: 0 <= i < |options| ==> (options[i].value in types <==> HasBit(mask, options[i].value))
    ensures IncludedLabels(options, types) == AllowedParticipants.SetLabels(options, mask)
  {
    if options != [] {
      var init := options[..|options| - 1];
      assert forall i :: 0 <= i < |init| ==> init[i] == options[i];
      IncludedLabelsMatchMask(init, types, mask);
    }
  }

  // ------------------------------------------------------------------ modal

  /** The modal's state; `initSize` is a prop. */
  class RequestModal {
    const initSize: int
    var loading: bool
    var updateRequests: seq<RequestRow>
    var size: int
    var totalElements: int
    /** Whether the page behind the modal is kept from scrolling. */
    var scrollLocked: bool

    constructor (initSize: int)
      ensures this.initSize == initSize
      ensures !loading && updateRequests == [] && size == initSize && totalElements == 0 && !scrollLocked
    {
      this.initSize := initSize;
      loading := false;
      updateRequests := [];
      size := initSize;
      totalElements := 0;
      scrollLocked := false;
    }

    /** Submitting is disabled, and so is the OK button. */
    predicate Disabled()
      reads this
    {
      LimitReached(totalElements, initSize)
    }

    /** `fetchUserUpdateRequests` given how `getUpdateRequests` settled;
        `threw` when the promise rejects. The list is set as soon as the
        answer arrives (none without `_embedded` or its list); reading
        `page.size` then fails when `page` is missing, leaving the size and
        the total as they were. A zero `page.size` falls back to `initSize`.
        After a complete fetch, submitting is disabled exactly when the API
        counts at least `initSize` requests. */
    method FetchUserUpdateRequests(call: Settled<Envelope<RequestRow>>) returns (query: RequestQuery, threw: bool)
      modifies this
      ensures query == RequestListQuery
      ensures threw <==> call.Rejected? || call.value.page.None?
      ensures call.Rejected? ==> updateRequests == old(updateRequests)
      ensures call.Resolved? ==> updateRequests == ListOrEmpty(call.value.embedded)
      ensures threw ==> size == old(size) && totalElements == old(totalElements)
      ensures !threw ==> (size == NewPageSize(Some(call.value.page.value.size), initSize)
                          && totalElements == call.value.page.value.totalElements)
      ensures !threw ==> (Disabled() <==> call.value.page.value.totalElements >= initSize)
      ensures loading == old(loading) && scrollLocked == old(scrollLocked)
    {
      query := RequestListQuery;
      match call {
        case Rejected =>
          threw := true;
        case Resolved(data) =>
          updateRequests := ListOrEmpty(data.embedded);
          if data.page.None? {
            threw := true;
          } else {
            threw := false;
            var info := data.page.value;
            size := if info.size != 0 then info.size else initSize;
            totalElements := info.totalElements;
          }
      }
    }

    /** The layout effect on `isOpen`: opening locks the page's scrolling and
        starts the fetch, closing unlocks it. The fetch is not awaited, so
        the loading flag is cleared at once in both cases. */
    method OpenChanged(isOpen: bool) returns (fetchStarted: bool)
      modifies this
      ensures fetchStarted == isOpen && scrollLocked == isOpen && !loading
      ensures updateRequests == old(updateRequests) && size == old(size) && totalElements == old(totalElements)
    {
      scrollLocked := isOpen;
      if isOpen {
        loading := true;
      }
      fetchStarted := isOpen;
      loading := false;
    }

    /** `handleOk`: the form validates (or not), then the request is created.
        A failed validation or a rejected call is only logged. The modal
        closes exactly when the answer is not an error. */
    method HandleOk(validated: bool, create: Settled<CreateResponse>) returns (sent: bool, toast: Option<Toast>, closed: bool)
      ensures sent == validated
      ensures closed <==> validated && create.Resolved? && !IsCreateError(create.value)
      ensures closed ==> toast == Some(RequestSent)
      ensures validated && create.Resolved? && IsCreateError(create.value) ==>
                toast == Some(RequestFailed(create.value.detail.value))
      ensures !validated || create.Rejected? ==> toast.None?
    {
      sent := validated;
      if !validated {
        return sent, None, false;
      }
      match create {
        case Rejected =>
          toast, closed := None, false;
        case Resolved(res) =>
          if IsCreateError(res) {
            toast, closed := Some(RequestFailed(res.detail.GetOr("Failed to create update request."))), false;
          } else {
            toast, closed := Some(RequestSent), true;
          }
      }
    }

    /** `handleDeleteRequest`, given how the deletion and the refetch that
        follows it settled. A deletion whose refetch fails shows the success
        toast and then the failure toast. */
    method HandleDeleteRequest(deleted: Settled<()>, refetched: Settled<Envelope<RequestRow>>)
      returns (toasts: seq<Toast>, refetchedList: bool)
      modifies this
      ensures refetchedList <==> deleted.Resolved?
      ensures deleted.Rejected? ==> (toasts == [DeleteFailed] && updateRequests == old(updateRequests)
                                     && size == old(size) && totalElements == old(totalElements))
      ensures deleted.Resolved? && (refetched.Rejected? || refetched.value.page.None?) ==>
                (toasts == [Deleted, DeleteFailed] && size == old(size) && totalElements == old(totalElements))
      ensures deleted.Resolved? && refetched.Rejected? ==> updateRequests == old(updateRequests)
      ensures deleted.Resolved? && refetched.Resolved? ==> updateRequests == ListOrEmpty(refetched.value.embedded)
      ensures deleted.Resolved? && refetched.Resolved? && refetched.value.page.Some? ==>
                (toasts == [Deleted] && size == NewPageSize(Some(refetched.value.page.value.size), initSize)
                 && totalElements == refetched.value.page.value.totalElements
                 && (Disabled() <==> refetched.value.page.value.totalElements >= initSize))
      ensures !loading && scrollLocked == old(scrollLocked)
    {
      loading := true;
      if deleted.Rejected? {
        toasts := [DeleteFailed];
        refetchedList := false;
      } else {
        toasts := [Deleted];
        refetchedList := true;
        var _, threw := FetchUserUpdateRequests(refetched);
        if threw {
          toasts := toasts + [DeleteFailed];
        }
      }
      loading := false;
    }
  }
}
