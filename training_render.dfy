/** The training detail card (src/components/training-render.tsx): the viewer's
    registration status with its allowed-type check, the register and
    unregister handlers, the action button, and the allowed user types line. */
module TrainingRender {
  import opened Outcomes
  import opened Text
  import opened UserTypes
  import opened AllowedParticipants
  import opened Registration
  import EventRender

  /** The parsed `user` of local storage; only its `type` mask is read. */
  datatype StoredUser = StoredUser(userType: bv32)

  /** The fields of `currentTrainingData` the component reads; `endTime` is the
      end of the training's location in milliseconds. */
  datatype Training = Training(
    id: string, viewer: Viewer, registered: bool,
    isPublic: bool, allowedType: bv32, endTime: int)

  /** The status effect: a guest when no user is stored, otherwise the first of
      host, organizer with MODIFY, REGISTERED, PENDING, then "not-allowed" when
      the training is not public and shares no bit with the user's type, and
      "none" after that. */
  function ResolveTrainingStatus(user: Option<StoredUser>, t: Training): (s: UserStatus)
    ensures s == Guest <==> user.None?
    ensures s == Host <==> user.Some? && t.viewer.isHost
    ensures s == Organizer <==> user.Some? && !t.viewer.isHost && CanModify(t.viewer)
    ensures s == Registered <==>
              user.Some? && !t.viewer.isHost && !CanModify(t.viewer)
              && t.viewer.attendeeStatus == Some("REGISTERED")
    ensures s == Pending <==>
              user.Some? && !t.viewer.isHost && !CanModify(t.viewer)
              && t.viewer.attendeeStatus == Some("PENDING")
    ensures s == NotAllowed <==>
              user.Some? && !t.viewer.isHost && !CanModify(t.viewer)
              && t.viewer.attendeeStatus != Some("REGISTERED") && t.viewer.attendeeStatus != Some("PENDING")
              && !t.isPublic && t.allowedType & user.value.userType == 0
    ensures s != Unresolved && s != Registering
  {
    match user
    case None => Guest
    case Some(u) =>
      if t.viewer.isHost then Host
      else if CanModify(t.viewer) then Organizer
      else if t.viewer.attendeeStatus == Some("REGISTERED") then Registered
      else if t.viewer.attendeeStatus == Some("PENDING") then Pending
      else if !t.isPublic && t.allowedType & u.userType == 0 then NotAllowed
      else NoRole
  }

  /** The training chain is the event chain with one extra case: wherever it
      does not answer "not-allowed", it answers what the event page would. */
  lemma TrainingStatusExtendsEventStatus(user: Option<StoredUser>, t: Training)
    ensures ResolveTrainingStatus(user, t) != NotAllowed ==>
              ResolveTrainingStatus(user, t) == EventRender.ResolveEventStatus(user.Some?, t.viewer)
    ensures ResolveTrainingStatus(user, t) == NotAllowed ==>
              EventRender.ResolveEventStatus(user.Some?, t.viewer) == NoRole
  {
  }

  /** The statuses the `switch` sends to its default, register-now branch. */
  predicate FallsToRegister(s: UserStatus) {
    s !in {Host, Organizer, Pending, Guest, NotAllowed}
  }

  /** `renderButton`: an ended training (end before now) wins over everything,
      then the `registered` field (an unregister button), and only then the
      status. Registered, none, registering and the unresolved status all fall
      to the register-now button. */
  function TrainingButton(t: Training, status: UserStatus, loading: bool, now: int): (b: Button)
    ensures t.endTime < now ==> b == Button("TRAINING ENDED", NoAction, true)
    ensures t.endTime >= now && t.registered ==> b.onClick == Unregister && Clickable(b)
    ensures b.onClick == Register <==> t.endTime >= now && !t.registered && FallsToRegister(status)
    ensures b.onClick == PromptLogin <==> t.endTime >= now && !t.registered && status == Guest
    ensures t.endTime >= now && !t.registered ==>
              (Clickable(b) <==> status == Guest || (FallsToRegister(status) && !loading))
  {
    if t.endTime < now then Button("TRAINING ENDED", NoAction, true)
    else if t.registered then Button("REGISTERED", Unregister, false)
    else
      match status
      case Host => Button("YOU ARE HOST", NoAction, true)
      case Organizer => Button("YOU ARE ORGANIZER", NoAction, true)
      case Pending => Button("PENDING", NoAction, true)
      case Guest => Button("LOGIN TO JOIN", PromptLogin, false)
      case NotAllowed => Button("NOT ALLOWED TO JOIN", NoAction, true)
      case _ => RegisterNowButton(loading)
  }

  /** The translation of each name, in order. */
  function Translated(names: seq<string>, t: string -> string): (r: seq<string>)
    ensures |r| == |names|
    ensures forall i :: 0 <= i < |names| ==> r[i] == t(names[i])
  {
    if names == [] then [] else Translated(names[..|names| - 1], t) + [t(names[|names| - 1])]
  }

  /** Translating one more name appends its translation. */
  lemma TranslatedSnoc(names: seq<string>, x: string, t: string -> string)
    ensures Translated(names + [x], t) == Translated(names, t) + [t(x)]
  {
    assert (names + [x])[..|names|] == names;
  }

  /** One more option appends its translated label when its bit is set. */
  lemma TranslatedLabelsSnoc(options: seq<Flag>, f: Flag, mask: bv32, t: string -> string)
    ensures Translated(SetLabels(options + [f], mask), t)
            == Translated(SetLabels(options, mask), t) + (if HasBit(mask, f.value) then [t(f.name)] else [])
  {
    SetLabelsSnoc(options, f, mask);
    if HasBit(mask, f.value) {
      TranslatedSnoc(SetLabels(options, mask), f.name, t);
    }
  }

  /** `trainingUserTypes`: "All Users" for a public training; otherwise walk
      `USER_TYPE_OPTIONS` and push the translated label of each option whose
      bit is set in `allowedType`, then join with ", ". */
  method TrainingUserTypes(isPublic: bool, allowedType: bv32, t: string -> string) returns (text: string)
    ensures text == if isPublic then t("All Users")
                    else Join(Translated(SetLabels(UserTypeOptions, allowedType), t), ", ")
  {
    if isPublic {
      return t("All Users");
    }
    var options := UserTypeOptions;
    var types: seq<string> := [];
    var i := 0;
    while i < |options|
      invariant 0 <= i <= |options|
      invariant types == Translated(SetLabels(options[..i], allowedType), t)
    {
      var option := options[i];
      assert options[..i + 1] == options[..i] + [option];
      TranslatedLabelsSnoc(options[..i], option, allowedType, t);
      if HasBit(allowedType, option.value) {
        types := types + [t(option.name)];
      }
      i := i + 1;
    }
    assert options[..i] == options;
    text := Join(types, ", ");
  }

  /** Flag tables with the same values select the same number of names from
      any mask. */
  lemma {:induction false} SameValuesSameCount(f: seq<Flag>, g: seq<Flag>, mask: bv32)
    requires Values(f) == Values(g)
    ensures |SetLabels(f, mask)| == |SetLabels(g, mask)|
  {
    if f != [] {
      var n := |f| - 1;
      ValuesPrefix(f, n);
      ValuesPrefix(g, n);
      assert f[n].value == Values(f)[n] == Values(g)[n] == g[n].value;
      SameValuesSameCount(f[..n], g[..n], mask);
    }
  }

  /** The values of a prefix are the prefix of the values. */
  lemma ValuesPrefix(f: seq<Flag>, n: nat)
    requires n <= |f|
    ensures Values(f[..n]) == Values(f)[..n]
  {
  }

  /** The user-types line lists exactly as many categories as the participant
      decoding finds, and so is empty when no bit among the four is set (the
      participant text would say "no participants" instead). */
  lemma UserTypesAgreeWithParticipants(allowedType: bv32, t: string -> string)
    ensures |SetLabels(UserTypeOptions, allowedType)| == |SetLabels(ParticipantTypes, allowedType)|
    ensures allowedType & 15 == 0 ==> Join(Translated(SetLabels(UserTypeOptions, allowedType), t), ", ") == ""
  {
    ParticipantTypesMatchUserTypes();
    SameValuesSameCount(UserTypeOptions, ParticipantTypes, allowedType);
    AllowedLabelsEmptyIff(allowedType);
  }

  /** The component's state: `loading`, `userStatus`, `currentTrainingData`,
      `isLoggedIn` and `isRefetching`. */
  class TrainingView {
    var loading: bool
    var userStatus: UserStatus
    var training: Training
    var isLoggedIn: bool
    var isRefetching: bool

    constructor (trainingData: Training)
      ensures !loading && userStatus == Unresolved && training == trainingData
      ensures !isLoggedIn && !isRefetching
    {
      loading := false;
      userStatus := Unresolved;
      training := trainingData;
      isLoggedIn := false;
      isRefetching := false;
    }

    /** The refetch effect: without an id nothing happens; otherwise the
        logged-in flag follows the stored user, and with a user the refetched data,
        when the call returns some, replaces the current data. */
    method RefetchTrainingData(user: Option<StoredUser>, refetched: Settled<Option<Training>>)
      modifies this
      ensures old(training).id == "" ==>
                training == old(training) && isLoggedIn == old(isLoggedIn) && isRefetching == old(isRefetching)
      ensures old(training).id != "" ==> isLoggedIn == user.Some?
      ensures old(training).id != "" ==> isRefetching == (if user.None? then old(isRefetching) else false)
      ensures training == if old(training).id != "" && user.Some? && refetched.Resolved? && refetched.value.Some?
                          then refetched.value.value else old(training)
      ensures loading == old(loading) && userStatus == old(userStatus)
    {
      if training.id == "" {
        return;
      }
      isLoggedIn := user.Some?;
      if user.None? {
        return;
      }
      isRefetching := true;
      if refetched.Resolved? && refetched.value.Some? {
        training := refetched.value.value;
      }
      isRefetching := false;
    }

    /** The status effect. */
    method ResolveStatus(user: Option<StoredUser>)
      modifies this
      ensures userStatus == ResolveTrainingStatus(user, training)
      ensures training == old(training) && loading == old(loading)
      ensures isLoggedIn == old(isLoggedIn) && isRefetching == old(isRefetching)
    {
      userStatus := ResolveTrainingStatus(user, training);
    }

    /** `handleRegister`: success moves the status to pending; failure keeps it. */
    method HandleRegister(call: Settled<()>) returns (toast: string)
      modifies this
      ensures !loading && training == old(training)
      ensures isLoggedIn == old(isLoggedIn) && isRefetching == old(isRefetching)
      ensures userStatus == (if call.Resolved? then Pending else old(userStatus))
      ensures toast == (if call.Resolved? then "REGISTER_SUCCESS" else "REGISTER_FAILED")
      ensures call.Resolved? ==> forall now :: now <= training.endTime && !training.registered ==>
                RenderButton(now) == Button("PENDING", NoAction, true)
    {
      loading := true;
      if call.Resolved? {
        toast := "REGISTER_SUCCESS";
        userStatus := Pending;
      } else {
        toast := "REGISTER_FAILED";
      }
      loading := false;
    }

    /** `handleUnregister` (the same toggle endpoint): success moves the status
        to "registering"; failure keeps it. */
    method HandleUnregister(call: Settled<()>) returns (toast: string)
      modifies this
      ensures !loading && training == old(training)
      ensures isLoggedIn == old(isLoggedIn) && isRefetching == old(isRefetching)
      ensures userStatus == (if call.Resolved? then Registering else old(userStatus))
      ensures toast == (if call.Resolved? then "UNREGISTER_SUCCESS" else "UNREGISTER_FAILED")
      ensures call.Resolved? ==> forall now :: now <= training.endTime && !training.registered ==>
                RenderButton(now).onClick == Register && Clickable(RenderButton(now))
    {
      loading := true;
      if call.Resolved? {
        toast := "UNREGISTER_SUCCESS";
        userStatus := Registering;
      } else {
        toast := "UNREGISTER_FAILED";
      }
      loading := false;
    }

    /** `renderButton` at time `now`: nothing is clickable once the training
        has ended, and a registered payload always offers the unregister
        button before it ends. */
    function RenderButton(now: int): (b: Button)
      reads this
      ensures Clickable(b) ==> now <= training.endTime
      ensures training.registered && now <= training.endTime ==> b.onClick == Unregister && Clickable(b)
    {
      TrainingButton(training, userStatus, loading, now)
    }
  }

  /** After a successful unregister the status "registering" offers the
      register button again once the payload no longer says `registered`. */
  lemma UnregisteredCanRegisterAgain(t: Training, now: int)
    requires t.endTime >= now && !t.registered
    ensures Clickable(TrainingButton(t, Registering, false, now))
    ensures TrainingButton(t, Registering, false, now).onClick == Register
  {
  }
}
