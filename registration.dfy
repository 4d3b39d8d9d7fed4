/** What the event page and the training page share: the registration status
    a viewer is shown, the caller-specific fields the API adds to an event or a
    training, and the action button (src/components/event-render.tsx,
    src/components/training-render.tsx). */
module Registration {
  import opened Outcomes

  /** The `userStatus` strings the two pages store. */
  datatype UserStatus =
    | Unresolved   // "", before the status effect has run
    | Guest        // "guest": nobody is stored in local storage
    | Host         // "host"
    | Organizer    // "organizer": an organizer holding the MODIFY role
    | Registered   // "registered"
    | Pending      // "pending"
    | NotAllowed   // "not-allowed": the training does not admit the user's type
    | NoRole       // "none"
    | Registering  // "registering": set after a training unregister succeeds

  /** `isHost`, `userAsOrganizer?.roles` and `userAttendeeStatus` of the payload;
      `organizerRoles` is absent when either `userAsOrganizer` or its `roles` is. */
  datatype Viewer = Viewer(isHost: bool, organizerRoles: Option<seq<string>>, attendeeStatus: Option<string>)

  /** `userAsOrganizer?.roles?.includes("MODIFY")`. */
  predicate CanModify(v: Viewer) {
    v.organizerRoles.Some? && "MODIFY" in v.organizerRoles.value
  }

  /** What clicking the button does. */
  datatype ClickAction = NoAction | PromptLogin | Register | Unregister

  /** A rendered button: the translation key of its caption, its `onClick`
      handler and its `disabled` flag. */
  datatype Button = Button(caption: string, onClick: ClickAction, disabled: bool)

  /** A click has an effect exactly when the button is enabled and has a handler. */
  predicate Clickable(b: Button) {
    !b.disabled && b.onClick != NoAction
  }

  /** The default branch of the `switch (userStatus)`: the register-now button. */
  function RegisterNowButton(loading: bool): Button {
    Button(if loading then "REGISTERING" else "REGISTER NOW", Register, loading)
  }
}
