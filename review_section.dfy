/** The review box of a seminar (src/components/ReviewSection.tsx): who may
    write a review, and what submitting one does to the box. */
module ReviewSection {
  import opened Outcomes
  import opened Text

  /** The attendee statuses the box distinguishes: checked in, or anything
      else. */
  datatype AttendeeStatus = Checked | OtherStatus

  /** The signed-in user's attendee record for the event, when there is one. */
  datatype Attendee = Attendee(status: AttendeeStatus)

  /** `ableToReview`. */
  predicate AbleToReview(userAsAttendee: Option<Attendee>) {
    userAsAttendee.Some? && userAsAttendee.value.status == Checked
  }

  /** What the box shows when it is rendered: the textarea's text, and the
      `disabled` flag the textarea and the button share. */
  datatype ReviewBox = ReviewBox(text: string, disabled: bool)

  /** The toast a submission shows. */
  datatype Toast = EnterReview | Submitted | SubmitFailed(message: string)

  /** The box's state; the event and the attendee record are props. */
  class ReviewForm {
    const eventId: string
    const category: string
    const userAsAttendee: Option<Attendee>
    var review: string
    var submitting: bool

    constructor (eventId: string, category: string, userAsAttendee: Option<Attendee>)
      ensures this.eventId == eventId && this.category == category && this.userAsAttendee == userAsAttendee
      ensures review == "" && !submitting
    {
      this.eventId := eventId;
      this.category := category;
      this.userAsAttendee := userAsAttendee;
      review := "";
      submitting := false;
    }

    /** The textarea and the button are both disabled by this: both stay
        enabled only for a checked-in attendee while nothing is submitting. */
    predicate InputsDisabled()
      reads this
      ensures !AbleToReview(userAsAttendee) ==> InputsDisabled()
      ensures !InputsDisabled() ==> !submitting && userAsAttendee == Some(Attendee(Checked))
    {
      submitting || !AbleToReview(userAsAttendee)
    }

    /** The box is rendered for seminars only, the category compared exactly. */
    predicate Rendered()
      reads this
    {
      category == "SEMINAR"
    }

    /** What the component returns: `null` unless the box is rendered,
        otherwise the box over the current text. A review can be written only
        into a seminar's box, by a checked-in attendee, while nothing is
        submitting. */
    function Render(): (v: Option<ReviewBox>)
      reads this
      ensures v.None? <==> category != "SEMINAR"
      ensures v.Some? ==> v.value.text == review && v.value.disabled == InputsDisabled()
      ensures v.Some? && !v.value.disabled ==>
        category == "SEMINAR" && !submitting && userAsAttendee == Some(Attendee(Checked))
    {
      if Rendered() then Some(ReviewBox(review, InputsDisabled())) else None
    }

    /** `handleSubmitReview`, given how `addReview` settled, with the error's
        message on a failure. A blank review is refused before any call; a
        success empties the box; a failure keeps what was written. */
    method HandleSubmitReview(call: Settled<()>, errMessage: Option<string>, t: string -> string)
      returns (called: bool, toast: Toast)
      modifies this
      ensures called <==> !IsBlank(old(review))
      ensures !called ==> toast == EnterReview && review == old(review) && submitting == old(submitting)
      ensures called && call.Resolved? ==> toast == Submitted && review == ""
      ensures called && call.Rejected? ==> toast == SubmitFailed(OrFallback(errMessage, t("Failed to submit review"))) && review == old(review)
      ensures called ==> !submitting && (InputsDisabled() <==> !AbleToReview(userAsAttendee))
    {
      if IsBlank(review) {
        return false, EnterReview;
      }
      called := true;
      submitting := true;
      match call {
        case Resolved(_) =>
          toast := Submitted;
          review := "";
        case Rejected =>
          toast := SubmitFailed(OrFallback(errMessage, t("Failed to submit review")));
      }
      submitting := false;
    }
  }
}
