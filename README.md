# tse-club front end: a Dafny model of its decision logic

The tse-club web client is a React/Next.js front end. Its pages mostly forward
calls to a REST API. This project models the logic those pages hold
themselves:

- decoding a user-type bit mask into labels (students, members, lecturers,
  post-graduate students);
- the registration status of a viewer on an event or a training page, and the
  button that status selects;
- the countdown to an event;
- the comment list of a post: post, edit, delete, ownership, "time ago"
  labels, and section ids injected into heading tags;
- the self check-in box: guards, endpoint, response reading, time window;
- the paged event, training and point-history tables, the filter panel that
  drives them, and the profile's update-request modal;
- date formatting and the token-expiry test.

The model is organised as follows:

- Each React component is a `class`: its `useState` fields are the class's
  fields, and each handler is a method.
- An awaited API call is a `Settled<T>` parameter of that method: `Resolved(value)`
  or `Rejected`. The method's `ensures` states the new state for either outcome.
- The decisions themselves are functions. The properties worth having are
  proved about those functions as lemmas.
- The translation function `t` is a parameter: translated texts are `t(key)`.
- Bit masks are `bv32`, since JavaScript's `&` works on 32-bit integers.

One module per source file, plus shared modules:

- `Outcomes`: `Option`, `Settled` and JavaScript truthiness of strings;
- `Text`: `trim`, `String(n)`, `padStart(2, "0")` and `join`;
- `UserTypes`: the user-type flags;
- `Registration`: statuses and buttons shared by the two detail pages;
- `Paging`: the API's page envelope and the table-change rule.

## Model

| member | source | states |
|---|---|---|
| UserTypes.FlagValues | src/constant/data.ts:25-30 | the four user types are the bits 1, 2, 4 and 8 |
| UserTypes.FlagsDisjointAndCoverLowNibble | src/constant/data.ts:25-30 | no two user types share a bit, and together they are exactly the mask 15 |
| UserTypes.OptionsInFlagOrder | src/constant/data.ts:33-38 | the checkbox options list student, member, lecturer and post-graduate student, in that order |
| AllowedParticipants.GetAllowedParticipants | src/lib/allowedParticipantsUtils.ts:20-30 | the loop pushes exactly the labels of the participant types whose bit is set, in table order |
| AllowedParticipants.AllowedLabelsInOrder | src/lib/allowedParticipantsUtils.ts:3-30 | the decoded labels spelled out for any mask: "Sinh viên" iff bit 1, "Thành viên" iff bit 2, "Giảng viên" iff bit 4, "Nghiên cứu sinh" iff bit 8, in that order |
| AllowedParticipants.LabelPresentIffBitSet | src/lib/allowedParticipantsUtils.ts:23-27 | a type's label is in the output if and only if its bit is set in the mask |
| AllowedParticipants.AllowedLabelsDistinct | src/lib/allowedParticipantsUtils.ts:20-30 | no label is output twice |
| AllowedParticipants.AllowedLabelsCount | src/lib/allowedParticipantsUtils.ts:20-30 | the output has one label per set bit among the low four, so at most four |
| AllowedParticipants.HighBitsIgnored | src/lib/allowedParticipantsUtils.ts:3-8 | bits above the fourth never change the output |
| AllowedParticipants.AllowedLabelsEmptyIff | src/lib/allowedParticipantsUtils.ts:20-30 | the output is empty if and only if none of the four bits is set |
| AllowedParticipants.FormatAllowedParticipantsCases | src/lib/allowedParticipantsUtils.ts:35-51 | public: the "all" text whatever the mask; no bit among the four: the "no participants" text; otherwise the labels joined with ", " |
| AllowedParticipants.ParticipantTypesMatchUserTypes | src/lib/allowedParticipantsUtils.ts:10-15 | the participant table has the same values in the same order as the checkbox options, but a different member label |
| EventRender.CountdownAt | src/components/event-render.tsx:48-61 | a distance of zero or less shows all zeros; a positive distance gives hours < 24, minutes and seconds < 60, and a decomposition that falls short of the distance by less than a second |
| EventRender.SplitsBack | src/components/event-render.tsx:55-60 | the four quotients put back together lose less than one second of the distance |
| EventRender.CountdownUnique | src/components/event-render.tsx:55-61 | the shown countdown is the only in-range decomposition within a second of the distance |
| EventRender.DecompositionInjective | src/components/event-render.tsx:55-61 | two in-range decompositions within a second of the same distance are equal |
| EventRender.ClockTextLayout | src/components/event-render.tsx:207-212 | the flip counter's text is exactly `hh:mm:ss`, each two-digit part reading back as the hours, minutes and seconds |
| EventRender.ResolveEventStatus | src/components/event-render.tsx:69-91 | each status holds if and only if its branch of the chain is the first to apply: guest without a stored user, then host, organizer with MODIFY, REGISTERED, PENDING, none |
| EventRender.EventButton | src/components/event-render.tsx:125-173 | host, organizer, registered and pending are disabled badges; a login prompt if and only if guest; the register button if and only if any other status; clickable exactly for a guest or, when not loading, for the register button |
| EventRender.EventView.Tick | src/components/event-render.tsx:48-63 | one interval tick sets the countdown of `start - now`, and stops the timer if and only if the start is reached |
| EventRender.EventView.ResolveStatus | src/components/event-render.tsx:69-91 | the status effect stores the resolved status and nothing else |
| EventRender.EventView.HandleRegister | src/components/event-render.tsx:94-105 | success moves the status to pending with the success toast, so the button becomes the disabled pending badge; failure keeps it with the failure toast; loading ends false |
| EventRender.EventView.RenderButton | src/components/event-render.tsx:125-173 | the view's button is clickable exactly for a guest, or for a viewer without a badge status while no registration is in flight; the register button never shows for a guest or a badge status |
| TrainingRender.ResolveTrainingStatus | src/components/training-render.tsx:80-111 | the event chain plus not-allowed, which holds if and only if no earlier case applies, the training is not public and its allowed type shares no bit with the user's type |
| TrainingRender.TrainingStatusExtendsEventStatus | src/components/training-render.tsx:93-104 | outside not-allowed the training status is the event status; not-allowed replaces what the event page would call none |
| TrainingRender.TrainingButton | src/components/training-render.tsx:139-208 | an ended training shows the disabled ended badge whatever the status; then a registered payload gives the unregister button; register if and only if the switch falls to its default; login prompt if and only if guest |
| TrainingRender.TrainingUserTypes | src/components/training-render.tsx:210-224 | public: "All Users"; otherwise the translated labels of the options whose bit is set, in option order, joined with ", " |
| TrainingRender.SameValuesSameCount | src/components/training-render.tsx:214-221 | two flag tables with the same values select the same number of labels from any mask |
| TrainingRender.UserTypesAgreeWithParticipants | src/components/training-render.tsx:210-224 | the user-types line lists as many categories as the participant decoding, and is empty under any translation when none of the four bits is set |
| TrainingRender.TrainingView.RefetchTrainingData | src/components/training-render.tsx:52-78 | without an id nothing changes; else the logged-in flag follows the stored user, and a user's refetch replaces the data when it returns some |
| TrainingRender.TrainingView.ResolveStatus | src/components/training-render.tsx:80-111 | the status effect stores the resolved status and nothing else |
| TrainingRender.TrainingView.HandleRegister | src/components/training-render.tsx:113-124 | success moves the status to pending, so before the end an unregistered payload shows the pending badge; failure keeps it; loading ends false |
| TrainingRender.TrainingView.HandleUnregister | src/components/training-render.tsx:126-137 | success moves the status to registering, so before the end an unregistered payload offers the clickable register button; failure keeps it; loading ends false |
| TrainingRender.TrainingView.RenderButton | src/components/training-render.tsx:139-208 | nothing is clickable after the end time; before it, a registered payload always offers the clickable unregister button |
| TrainingRender.UnregisteredCanRegisterAgain | src/components/training-render.tsx:195-206 | once the payload no longer says registered, "registering" offers the clickable register button again |
| PostRender.WithContent | src/components/post-render.tsx:169-173 | an edit keeps the number of comments |
| PostRender.EditPointwise | src/components/post-render.tsx:169-173 | position by position, a comment with the id gets the new content and every other comment is unchanged |
| PostRender.EditKeepsIdsAndOrder | src/components/post-render.tsx:169-173 | an edit keeps every comment's id, commenter and time in place |
| PostRender.EditIdempotent | src/components/post-render.tsx:169-173 | saving the same edit twice is saving it once |
| PostRender.EditOfAbsentIdIsIdentity | src/components/post-render.tsx:169-173 | an edit of an id no comment carries changes nothing |
| PostRender.Without | src/components/post-render.tsx:192 | a delete never grows the list, and no survivor carries the id |
| PostRender.DeleteMembership | src/components/post-render.tsx:192 | a comment survives a delete if and only if it was in the list and does not carry the id |
| PostRender.DeleteDistributes | src/components/post-render.tsx:192 | the filter of a concatenation is the concatenation of the filters, so survivors keep their order |
| PostRender.DeleteRemovesExactlyMatches | src/components/post-render.tsx:192 | the list shrinks by exactly the number of comments carrying the id |
| PostRender.DeleteOfAbsentIdIsIdentity | src/components/post-render.tsx:192 | deleting an id no comment carries changes nothing |
| PostRender.DeleteIdempotent | src/components/post-render.tsx:192 | deleting twice is deleting once |
| PostRender.DeleteKeepsPostedComment | src/components/post-render.tsx:189-200 | a comment posted in front survives a delete of another id and stays in front |
| PostRender.OwnerCases | src/components/post-render.tsx:224-226 | nobody owns a comment before a user is stored; a user with an id owns exactly the comments with that commenter id; a user without an id owns those without one |
| PostRender.FormatTimeAgo | src/components/post-render.tsx:202-213 | an invalid date gives NaN; under a minute (or in the future) "just now"; otherwise minutes 1-59, hours 1-23 or days, each the whole number of units the age spans |
| PostRender.FloorOfFloor | src/components/post-render.tsx:205-212 | flooring the seconds and then dividing again is dividing the milliseconds once, so the thresholds read in milliseconds |
| PostRender.TimeAgoMonotone | src/components/post-render.tsx:202-213 | a later clock never moves a comment to a younger bucket |
| PostRender.TimeAgoText | src/components/post-render.tsx:207-212 | "just now" is the translation or its fallback; an invalid date starts with `NaN `; every other label starts with the bucket's number in decimal and a space |
| PostRender.TimeAgoLabelReadsBack | src/components/post-render.tsx:202-213 | from one minute of age on, the label starts with a number of at least 1 that reads back as the whole minutes, hours or days of the bucket |
| PostRender.InjectHeadingIds | src/components/post-render.tsx:85-94 | the scan's output is the global replace that numbers the heading tags from 0 |
| PostRender.NoTagUnchanged | src/components/post-render.tsx:87-88 | content without an `<h1>`…`<h5>` tag passes through unchanged |
| PostRender.FirstTagGetsNextId | src/components/post-render.tsx:87-93 | the first tag gets `id="section-k"`, the text before it is untouched, and numbering goes on at `k + 1` after it |
| PostRender.PostView.Mount | src/components/post-render.tsx:68-77 | a stored user logs the page in and becomes the current user; nothing else changes |
| PostRender.PostView.LoadPage | src/components/post-render.tsx:79-101 | without page data nothing changes; else the content with heading ids, and the comments, empty when absent |
| PostRender.PostView.HandlePostComment | src/components/post-render.tsx:144-161 | a call is made if and only if the input is not blank; success puts the new comment first and empties the input, which disables the post button; failure keeps both |
| PostRender.PostView.HandleEditComment | src/components/post-render.tsx:163-187 | a call is made if and only if the edit text is not blank; success applies the edit and leaves edit mode; failure keeps everything |
| PostRender.PostView.HandleDeleteComment | src/components/post-render.tsx:189-200 | success removes the comments with the id; failure keeps the list |
| PostRender.PostView.StartEditing | src/components/post-render.tsx:448-451 | edit mode for the comment's id (or "") with its current text |
| PostRender.PostView.CancelEditing | src/components/post-render.tsx:498-501 | leaves edit mode and clears the edit text |
| PostRender.PostView.IsCommentOwner | src/components/post-render.tsx:224-226 | before a user is stored nobody owns a comment; an owned comment carries the stored user's id as its commenter id |
| PostRender.PostView.PostButtonDisabled | src/components/post-render.tsx:397 | an enabled post button means nothing is submitting and the input holds a character that is not whitespace |
| CheckIn.PlanCheckIn | src/components/CheckInSection.tsx:31-54 | a blank code is refused first; a guest with a blank attendee id is refused next; otherwise the logged-in or the public call, with the code and the typed attendee id as typed |
| CheckIn.FailureIffAtLeast400 | src/components/CheckInSection.tsx:58 | an integer status fails if and only if it is at least 400; a missing status fails |
| CheckIn.CheckInWindow | src/components/CheckInSection.tsx:77-82 | both ends belong to the window; a window ending before it starts is never open; an invalid date keeps it closed |
| CheckIn.CheckInForm.HandleCheckIn | src/components/CheckInSection.tsx:31-75 | the call made is the plan's; success if and only if it was made, settled and not a failure status; only success clears the inputs |
| CheckIn.CheckInForm.CodeInputDisabled | src/components/CheckInSection.tsx:125 | the code input is disabled before the start, after the end, and whenever a date is invalid |
| CheckIn.CheckInForm.ButtonDisabled | src/components/CheckInSection.tsx:130 | the button is disabled whenever the code input is, and while submitting; an enabled button means neither holds |
| Utils.FormattedDateLayout | src/lib/utils.ts:9-21 | for a valid date, `dd/mm/yyyy` with two-digit day and month number (month index + 1) reading back as the components, and the year unpadded |
| Utils.FormattedTimeLayout | src/lib/utils.ts:9-21 | for a valid date, `hh:mm:ss`, each part two digits reading back as the component |
| Utils.FormatDateInjective | src/lib/utils.ts:11-19 | for non-negative years, equal date strings mean equal day, month and year |
| Utils.IsTokenExpired | src/lib/utils.ts:37-46 | an undecodable token, or one without a non-zero `exp`, is expired |
| Utils.ExpiredIffPastExpSecond | src/lib/utils.ts:40-42 | with a non-zero `exp`, expired if and only if the clock has reached the second after `exp`; still valid during second `exp` |
| Utils.ExpiryIsMonotone | src/lib/utils.ts:37-46 | once expired, a token stays expired |
| Paging.PageMappingRoundTrip | src/components/EventSection.tsx:80-91 | the 1-indexed pagination and the 0-indexed API pages are inverse mappings |
| Paging.NewPageSize | src/components/EventSection.tsx:85 | an absent or zero size keeps the size prop; any other size is taken |
| Paging.EmbeddedOrEmpty | src/components/EventSection.tsx:55 | `_embedded ? list : []`: the list when there is one, no rows without `_embedded`, `undefined` if and only if `_embedded` holds no list |
| Paging.ListOrEmpty | src/components/profiles/PointHistoryCard.tsx:41 | `_embedded?.list`, defaulting to `[]`: the list when there is one, no rows otherwise |
| Paging.ReadingsAgreeUnlessNoList | src/components/profiles/PointHistoryCard.tsx:41 | the two readings of `_embedded` agree if and only if `_embedded` is missing or holds its list |
| Paging.TableChange | src/components/EventSection.tsx:80-91 | a fetch is started if and only if the page or the size differs, and it asks for the clicked page at the new size |
| Paging.TableChangeOnlyOnChange | src/components/TrainingSection.tsx:99-110 | re-clicking the shown page at the same size fetches nothing; clicking another page fetches exactly it |
| Paging.PageChange | src/components/profiles/PointHistoryCard.tsx:65-73 | a fetch if and only if the clicked page is not the shown one, and then of that page |
| Paging.Synced | src/components/EventSection.tsx:55-57 | a response with a page object gives its rows (none without `_embedded`, `undefined` when `_embedded` holds no list), its total and its page |
| Paging.Cleared | src/components/EventSection.tsx:58-61 | a failed fetch gives no rows, a zero total and the page unchanged |
| Paging.FetchedPageIsDisplayed | src/components/EventSection.tsx:80-91 | a click followed by a fetch of that page shows the clicked page |
| Filters.ClearEventFilters | src/components/events/filters/EventAndTrainingFilter.tsx:39-48 | keyword "", no dates, no type and the default sort; every other field unchanged |
| Filters.ClearTrainingFilters | src/components/events/filters/EventAndTrainingFilter.tsx:50-59 | no dates, the default sort, searching "title" for "**"; every other field unchanged |
| Filters.ClearIdempotent | src/components/events/filters/EventAndTrainingFilter.tsx:39-59 | clearing a cleared panel changes nothing |
| Filters.ClearForgetsResetFields | src/components/events/filters/EventAndTrainingFilter.tsx:39-48 | two panels that differ only in reset fields clear to the same panel |
| Filters.SetEventKeyword | src/components/events/filters/EventAndTrainingFilter.tsx:122-126 | sets the keyword and no other field |
| Filters.SetEventType | src/components/events/filters/EventAndTrainingFilter.tsx:141-146 | sets the event type and no other field |
| Filters.SetEventStartTime | src/components/events/filters/EventAndTrainingFilter.tsx:172-177 | sets the start time and no other field |
| Filters.SetEventEndTime | src/components/events/filters/EventAndTrainingFilter.tsx:188-193 | sets the end time and no other field |
| Filters.SetEventSort | src/components/events/filters/EventAndTrainingFilter.tsx:208-213 | sets the sort and no other field |
| Filters.SetTrainingKeyword | src/components/events/filters/EventAndTrainingFilter.tsx:275-278 | sets the search values to the one typed value and no other field |
| Filters.SetTrainingStartTime | src/components/events/filters/EventAndTrainingFilter.tsx:298-301 | sets the start time and no other field |
| Filters.SetTrainingEndTime | src/components/events/filters/EventAndTrainingFilter.tsx:312-315 | sets the end time and no other field |
| Filters.SetTrainingSort | src/components/events/filters/EventAndTrainingFilter.tsx:330-333 | sets the sort and no other field |
| Filters.KeywordBoxesShowInput | src/components/events/filters/EventAndTrainingFilter.tsx:121-126 | a box shows what was typed; a cleared event box is empty, a cleared training box shows "**", the cleared sort shows the default |
| Filters.SortOptionsShape | src/components/events/filters/EventAndTrainingFilter.tsx:26-37 | ten distinct options, each field ascending then descending, the default sort among them |
| EventSection.SortOrDefault | src/components/EventSection.tsx:46 | a non-empty sort is sent as it is, otherwise the default |
| EventSection.EventQueryFor | src/components/EventSection.tsx:40-53 | the query carries the page, the size, the defaulted sort and every search parameter as given |
| EventSection.EventFetchResult | src/components/EventSection.tsx:38-65 | a response with a page object syncs the table; a failure or a missing page clears it |
| EventSection.EventFetchCases | src/components/EventSection.tsx:55-61 | rows only come from a response with a page object and a list; a response without `_embedded` shows no rows with the API's total; the rows are `undefined` if and only if a paged response's `_embedded` holds no list; a failure keeps only the page |
| EventSection.AttendeeText | src/components/EventSection.tsx:109-112 | the attendee text starts with the registered count (0 when absent) |
| EventSection.FullRowsShowTheirLimit | src/components/EventSection.tsx:102-112 | a row with a non-zero limit shows `count / limit` (0 for a missing count), so a full row shows its limit; a row without a limit is never full and shows the ended text; the training table's attendee column (src/components/TrainingSection.tsx:157-170) renders its rows, which are event rows, by the same rule |
| EventSection.EventTable.FetchEvents | src/components/EventSection.tsx:38-65 | sends the query of the page and size, and the table becomes the fetch result; the next render throws if and only if a paged response's `_embedded` held no list |
| EventSection.EventTable.HandleTableChange | src/components/EventSection.tsx:80-91 | the fetch started is the table-change rule's |
| TrainingSection.WrapSearchValues | src/components/TrainingSection.tsx:57-59 | absent search values stay absent; present ones keep their number |
| TrainingSection.WrapReadBack | src/components/TrainingSection.tsx:57-59 | each sent value is a star, the trimmed typed value at the same position, and a star |
| TrainingSection.WrapOfSolid | src/components/TrainingSection.tsx:57-59 | a value without surrounding whitespace is sent between two stars as typed |
| TrainingSection.ClearedSearchIsQuadrupleStar | src/components/events/filters/EventAndTrainingFilter.tsx:57 | after "clear all" the training query searches for "****" |
| TrainingSection.TrainingQueryFor | src/components/TrainingSection.tsx:60-71 | the query carries the page, the size, the defaulted sort, the wrapped search values and the other parameters as given |
| TrainingSection.TrainingFetchAsWritten | src/components/TrainingSection.tsx:54-84 | a response with a page object and an `_embedded` member (with its list or without) syncs the table; a missing `_embedded`, a missing page or a failure clears it |
| TrainingSection.TrainingFetchResult | src/components/TrainingSection.tsx:73-80 | a response with a page object syncs the table, with no rows when `_embedded` is absent; a failure or a missing page clears it |
| TrainingSection.AsWrittenDiffersOnlyWithoutEmbedded | src/components/TrainingSection.tsx:73-76 | the code as written and the intended rule differ only on a response with a page object and no `_embedded` member |
| TrainingSection.EmptyPageLosesTotal | src/components/TrainingSection.tsx:73-80 | an empty page beyond the end (12 trainings, page 3 of size 10) sets total 0 on the old page as written, and total 12 on page 3 as intended |
| TrainingSection.TrainingTable.FetchTraining | src/components/TrainingSection.tsx:54-84 | sends the query of the page and size, and the table becomes the intended fetch result |
| TrainingSection.TrainingTable.HandleTableChange | src/components/TrainingSection.tsx:99-110 | the fetch started is the table-change rule's |
| PointHistory.PointFetchResult | src/components/profiles/PointHistoryCard.tsx:41-58 | rows are the list or none (also for an `_embedded` without its list); with a page object its total and page; without one the row count and the first page; a failure clears rows and total and keeps the page |
| PointHistory.PagelessResponseKeepsRows | src/components/profiles/PointHistoryCard.tsx:50-53 | a response without a page object shows its rows on page 1 with their count as the total |
| PointHistory.PointHistoryCard.FetchMyPointHistories | src/components/profiles/PointHistoryCard.tsx:29-62 | a visitor fetches nothing and nothing changes; the owner sends page, size 5 and the newest-first sort, and the card becomes the fetch result |
| PointHistory.PointHistoryCard.HandleTableChange | src/components/profiles/PointHistoryCard.tsx:65-73 | the fetch started is the page-change rule's |
| PointHistory.PointHistoryCard.Mount | src/components/profiles/PointHistoryCard.tsx:76-81 | the first page is fetched on mount if and only if the stored user owns the profile |
| ReviewSection.ReviewForm.Render | src/components/ReviewSection.tsx:48-80 | the component renders nothing unless the category is exactly `SEMINAR`; the box shows the current text with the disabled flag of the textarea and the button, so a review can be written only into a seminar's box by a checked-in attendee while nothing is submitting |
| ReviewSection.ReviewForm.InputsDisabled | src/components/ReviewSection.tsx:76 | a user who cannot review always sees the box disabled; an enabled box means nothing is submitting and the attendee record is CHECKED |
| ReviewSection.ReviewForm.HandleSubmitReview | src/components/ReviewSection.tsx:26-41 | a call is made if and only if the review is not blank; success empties the box; failure keeps the text and shows the error message, or the translated fallback when it has none; afterwards the box is disabled if and only if the user cannot review |
| UpdateRequestModal.IncludedLabels | src/components/profiles/SelfUserUpdateRequestModal.tsx:138-140 | the filter keeps at most as many labels as there are options |
| UpdateRequestModal.IncludedLabelsSpelledOut | src/components/profiles/SelfUserUpdateRequestModal.tsx:136-142 | the labels in option order, each present if and only if its flag is in the decoded list, whatever that list's order or repetitions |
| UpdateRequestModal.IncludedLabelsMatchMask | src/components/profiles/SelfUserUpdateRequestModal.tsx:137-140 | when the decoded list holds exactly the set bits of a mask, the labels are those the mask selects |
| UpdateRequestModal.TypeLabels | src/components/profiles/SelfUserUpdateRequestModal.tsx:136-142 | the type column is empty if and only if none of the four user types was decoded |
| UpdateRequestModal.RequestModal.FetchUserUpdateRequests | src/components/profiles/SelfUserUpdateRequestModal.tsx:66-77 | the list is set (none without `_embedded` or its list) as soon as the answer arrives; a missing page throws before size and total; a zero size falls back to `initSize`; after a complete fetch submitting is disabled if and only if the API counts at least `initSize` requests |
| UpdateRequestModal.RequestModal.OpenChanged | src/components/profiles/SelfUserUpdateRequestModal.tsx:48-64 | opening locks scrolling and starts the fetch, closing unlocks; loading ends false at once |
| UpdateRequestModal.RequestModal.HandleOk | src/components/profiles/SelfUserUpdateRequestModal.tsx:79-101 | a request is sent if and only if the form validates; the modal closes if and only if the answer is not an error (detail and title both set) |
| UpdateRequestModal.RequestModal.HandleDeleteRequest | src/components/profiles/SelfUserUpdateRequestModal.tsx:103-115 | a failed delete shows the failure toast and changes nothing; a rejected refetch adds the failure toast and keeps list, size and total; a refetch without a page sets the list, then fails, keeping size and total; a full success reloads list, size and total and re-decides the limit |
| Text.Trim | src/components/post-render.tsx:145 | `trim` returns the slice of the input that lies between its leading and its trailing whitespace, and that slice neither starts nor ends with whitespace |
| Text.BlankIffAllWhitespace | src/components/post-render.tsx:145 | a text is refused as blank if and only if every character is whitespace |
| Text.TrimIdempotent | src/components/TrainingSection.tsx:58 | trimming twice is trimming once |
| Text.DecimalRoundTrip | src/components/event-render.tsx:207-212 | `String(n)` reads back as n |
| Text.TwoDigitsRoundTrip | src/lib/utils.ts:11-16 | below 100, `padStart(2, "0")` gives two digits reading back as the number |
| Outcomes.OrFallback | src/components/CheckInSection.tsx:59 | JavaScript's `s or fallback`: the string when it is present and non-empty, the fallback otherwise |

## Left out

- The network calls, local storage, timers (`setInterval`, the 500 ms
  debounce), toasts and the DOM are outside the model. Each awaited call is a
  `Settled` parameter. The stored user is an `Option` parameter. A toast is an
  out-parameter.
- The debounced effects of the event and training tables, which refetch page 0
  when the parameters or the size change: the fetch they start is
  `FetchEvents(0, pageSize, …)` or `FetchTraining(0, pageSize, …)`.
- Overlapping fetches of the event and training tables are not modelled. A
  debounced refetch and a page click (src/components/EventSection.tsx:38-91,
  src/components/TrainingSection.tsx:86-110) can both be in flight. They
  settle in either order and the last `setState` wins. The model applies each
  fetch in one step, as if it settled before the next one started.
- Translation is an opaque parameter `t`. No catalogue of texts is modelled.
- `Date` parsing and `toLocaleString`: dates arrive as UTC components or
  milliseconds; an invalid date is `None`.
- `jwtDecode` is not modelled. `isTokenExpired` takes the decoded payload, and
  a decoder that throws gives `None`.
- `encodeBitwiseType` and `decodeBitwiseType` are in
  src/modules/services/userService.ts but are not part of this model. The type
  column takes the decoded list as input.
- src/constant/types.ts is not part of this model. `AttendeeStatus` is reduced
  to checked or not. Rows carry only the fields the logic reads.
- The table of contents is extracted with `DOMParser`. Its ids are
  `section-<index>` like the fallback, so the injection uses that id; the
  title and level extraction and the scroll-spy effect are not modelled.
- The thrown error's message in the check-in catch, and the review error's
  shape (`err?.message`), are parameters or collapsed into one outcome.
- The loading spinners and the intermediate `loading = true` render between
  two await points are not separate states.
- `PageInfo` fields are integers, so `totalElements || 0` is the identity
  there. A missing `pagination.current` (the `!` assertion) is not modelled.
- Utils.IsTokenExpired: its contract states only the two always-expired cases.
  All other behaviour is stated by Utils.ExpiredIffPastExpSecond.
- PostRender.WithContent: its own contract states only the length.
  Everything else is stated by PostRender.EditPointwise.
- The member label of the participant table ("Thành viên",
  src/lib/allowedParticipantsUtils.ts:12) differs from the checkbox option's
  ("Hội viên", src/constant/data.ts:35). The model follows the code and keeps
  both (AllowedParticipants.ParticipantTypesMatchUserTypes).
- EventRender.EventView.Tick: the start time is an integer, so an unparsable
  `startTime` (whose distance is NaN and whose countdown shows NaN) is not
  modelled; likewise a training's end time is an integer, so an invalid one
  that is never "ended" is not modelled.
- The check-in feedback keeps the response's `detail`; the shown text is
  `OrFallback(detail, t("Check-in failed"))`; the model does not build that
  text.
- In `handleOk` the fallback text of the error toast can never show, because
  the branch requires a non-empty `detail`.

## Findings

| source | as written | input that shows it | evidently intended | confidence | as-written member | corrected member |
|---|---|---|---|---|---|---|
| src/components/TrainingSection.tsx:74 | after the rows are set with a `[]` fallback for a missing `_embedded` (line 73), `console.log(data._embedded.trainingWrapperDtoList)` dereferences `_embedded` unguarded. A response without it throws into the catch: the total becomes 0 and the page number is not synced. | a request for page 3 (size 10) when 12 trainings exist: the answer has a page object `{size: 10, totalElements: 12, number: 3}` and no `_embedded`. The table shows total 0 and stays on page 2 | the rule of the event table (src/components/EventSection.tsx:55-57): no rows, total 12, page 3 | not executed | TrainingSection.TrainingFetchAsWritten, TrainingSection.EmptyPageLosesTotal | TrainingSection.TrainingFetchResult, TrainingSection.TrainingTable.FetchTraining |
