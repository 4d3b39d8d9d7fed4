/** The check-in box of an event page (src/components/CheckInSection.tsx):
    input guards, the choice between the logged-in and the public endpoint,
    the reading of the response status, and the check-in window. */
module CheckIn {
  import opened Outcomes
  import opened Text

  /** The two check-in calls, with the body each sends. */
  datatype Request =
    | SelfCheckIn(eventId: string, code: string)
    | PublicSelfCheckIn(eventId: string, code: string, attendeeId: string)

  /** What `handleCheckIn` does before awaiting: reject an input, or send. */
  datatype Plan = MissingCode | MissingAttendeeId | Send(request: Request)

  /** The guards and the endpoint choice. The code and the attendee id are
      sent as typed, untrimmed. The logged-in branch of the attendee-id
      ternary inside the public call can never be taken, so the typed id is
      always the one sent. */
  function PlanCheckIn(eventId: string, code: string, attendeeId: string, isLoggedIn: bool): (p: Plan)
    ensures p == MissingCode <==> IsBlank(code)
    ensures p == MissingAttendeeId <==> !IsBlank(code) && !isLoggedIn && IsBlank(attendeeId)
    ensures p.Send? <==> !IsBlank(code) && (isLoggedIn || !IsBlank(attendeeId))
    ensures p.Send? ==> p.request.eventId == eventId && p.request.code == code
    ensures p.Send? ==> (p.request.SelfCheckIn? <==> isLoggedIn)
    ensures p.Send? && p.request.PublicSelfCheckIn? ==> p.request.attendeeId == attendeeId
  {
    if IsBlank(code) then MissingCode
    else if !isLoggedIn && IsBlank(attendeeId) then MissingAttendeeId
    else if isLoggedIn then Send(SelfCheckIn(eventId, code))
    else Send(PublicSelfCheckIn(eventId, code, attendeeId))
  }

  /** The fields of the response read: `status` and `detail`. */
  datatype Response = Response(status: Option<int>, detail: Option<string>)

  /** `response.status == undefined || response.status / 100 >= 4`, with
      JavaScript's division of numbers, which is not integer division. */
  predicate IsFailureResponse(r: Response) {
    r.status.None? || (r.status.value as real) / 100.0 >= 4.0
  }

  /** For an integer status the test is `status >= 400`: every 4xx and 5xx,
      and nothing below, so 399 succeeds and 400 fails. */
  lemma FailureIffAtLeast400(r: Response)
    ensures r.status.Some? ==> (IsFailureResponse(r) <==> r.status.value >= 400)
    ensures r.status.None? ==> IsFailureResponse(r)
  {
    if r.status.Some? {
      var s := r.status.value as real;
      assert s / 100.0 >= 4.0 <==> s >= 400.0;
    }
  }

  /** The message a handled call leaves. */
  datatype Feedback =
    | EnterCode                    // "Please enter check-in code"
    | EnterAttendeeId              // "Please enter your attendee ID"
    | Failed(detail: Option<string>)  // shown as `OrFallback(detail, t("Check-in failed"))`
    | Succeeded                    // "Check-in successful!"
    | Threw                        // the call threw; the caught error's message is shown

  /** `isCheckInOpen`: `now >= start && now <= end`, inclusive at both ends.
      An unparsable start or end is absent, and comparing with it is false. */
  predicate IsCheckInOpen(nowMs: int, startMs: Option<int>, endMs: Option<int>) {
    startMs.Some? && endMs.Some? && startMs.value <= nowMs && nowMs <= endMs.value
  }

  /** Both ends belong to the window; a window that ends before it starts is
      never open, and an invalid date closes it for good. */
  lemma CheckInWindow(nowMs: int, startMs: int, endMs: int)
    ensures IsCheckInOpen(startMs, Some(startMs), Some(endMs)) <==> startMs <= endMs
    ensures IsCheckInOpen(endMs, Some(startMs), Some(endMs)) <==> startMs <= endMs
    ensures endMs < startMs ==> !IsCheckInOpen(nowMs, Some(startMs), Some(endMs))
    ensures !IsCheckInOpen(nowMs, None, Some(endMs)) && !IsCheckInOpen(nowMs, Some(startMs), None)
    ensures IsCheckInOpen(nowMs, Some(startMs), Some(endMs)) <==>
              !(nowMs < startMs) && !(nowMs > endMs)
  {
  }

  /** The component's state: the typed `checkInCode` and `attendeeId`, and
      `submitting`; the props it reads are constants. */
  class CheckInForm {
    const eventId: string
    const isLoggedIn: bool
    const startMs: Option<int>
    const endMs: Option<int>
    var checkInCode: string
    var attendeeId: string
    var submitting: bool

    constructor (eventId: string, isLoggedIn: bool, startMs: Option<int>, endMs: Option<int>)
      ensures this.eventId == eventId && this.isLoggedIn == isLoggedIn
      ensures this.startMs == startMs && this.endMs == endMs
      ensures checkInCode == "" && attendeeId == "" && !submitting
    {
      this.eventId := eventId;
      this.isLoggedIn := isLoggedIn;
      this.startMs := startMs;
      this.endMs := endMs;
      checkInCode := "";
      attendeeId := "";
      submitting := false;
    }

    /** `handleCheckIn` given how the chosen call settled. `request` is the
        call made, if any. Only a success clears the inputs. */
    method HandleCheckIn(response: Settled<Response>) returns (request: Option<Request>, feedback: Feedback)
      modifies this
      ensures var p := PlanCheckIn(eventId, old(checkInCode), old(attendeeId), isLoggedIn);
              request == (if p.Send? then Some(p.request) else None)
      ensures request.None? ==> submitting == old(submitting)
      ensures request.Some? ==> !submitting
      ensures feedback == Succeeded <==> request.Some? && response.Resolved? && !IsFailureResponse(response.value)
      ensures feedback == Succeeded ==> checkInCode == "" && attendeeId == ""
      ensures feedback != Succeeded ==> checkInCode == old(checkInCode) && attendeeId == old(attendeeId)
      ensures request.None? ==> feedback == (if IsBlank(old(checkInCode)) then EnterCode else EnterAttendeeId)
      ensures request.Some? && response.Rejected? ==> feedback == Threw
      ensures request.Some? && response.Resolved? && IsFailureResponse(response.value) ==>
                feedback == Failed(response.value.detail)
    {
      if IsBlank(checkInCode) {
        return None, EnterCode;
      }
      if !isLoggedIn && IsBlank(attendeeId) {
        return None, EnterAttendeeId;
      }
      submitting := true;
      if isLoggedIn {
        request := Some(SelfCheckIn(eventId, checkInCode));
      } else {
        request := Some(PublicSelfCheckIn(eventId, checkInCode, attendeeId));
      }
      match response {
        case Rejected =>
          feedback := Threw;
        case Resolved(r) =>
          if IsFailureResponse(r) {
            feedback := Failed(r.detail);
          } else {
            feedback := Succeeded;
            checkInCode := "";
            attendeeId := "";
          }
      }
      submitting := false;
    }

    /** The code input: disabled outside the window. */
    predicate CodeInputDisabled(nowMs: int)
      reads this
      ensures startMs.None? || endMs.None? ==> CodeInputDisabled(nowMs)
      ensures startMs.Some? && nowMs < startMs.value ==> CodeInputDisabled(nowMs)
      ensures endMs.Some? && endMs.value < nowMs ==> CodeInputDisabled(nowMs)
    {
      !IsCheckInOpen(nowMs, startMs, endMs)
    }

    /** The check-in button: disabled while submitting or outside the window. */
    predicate ButtonDisabled(nowMs: int)
      reads this
      ensures submitting || CodeInputDisabled(nowMs) ==> ButtonDisabled(nowMs)
      ensures !ButtonDisabled(nowMs) ==> !submitting && !CodeInputDisabled(nowMs)
    {
      submitting || !IsCheckInOpen(nowMs, startMs, endMs)
    }
  }
}
