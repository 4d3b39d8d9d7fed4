/** The event detail card (src/components/event-render.tsx): the countdown to
    the start, the viewer's registration status, the register handler and the
    action button. */
module EventRender {
  import opened Outcomes
  import opened Text
  import opened Registration

  const MsPerSecond: nat := 1000
  const MsPerMinute: nat := 60000
  const MsPerHour: nat := 3600000
  const MsPerDay: nat := 86400000

  /** The `countdown` state. */
  datatype Countdown = Countdown(days: nat, hours: nat, minutes: nat, seconds: nat)

  /** The milliseconds a countdown stands for. */
  function Milliseconds(c: Countdown): nat {
    c.days * MsPerDay + c.hours * MsPerHour + c.minutes * MsPerMinute + c.seconds * MsPerSecond
  }

  /** Hours below 24, minutes and seconds below 60. */
  predicate InRange(c: Countdown) {
    c.hours < 24 && c.minutes < 60 && c.seconds < 60
  }

  /** One tick of the timer: `distance = start - now` in milliseconds, split by
      `Math.floor` of divisions and `%` (for a positive distance these agree
      with Dafny's `/` and `%`). A distance of zero or less shows all zeros. */
  function CountdownAt(distance: int): (c: Countdown)
    ensures distance <= 0 ==> c == Countdown(0, 0, 0, 0)
    ensures distance > 0 ==> InRange(c)
    ensures distance > 0 ==> Milliseconds(c) <= distance < Milliseconds(c) + MsPerSecond
  {
    if distance <= 0 then Countdown(0, 0, 0, 0)
    else
      var c := Countdown(distance / MsPerDay, (distance % MsPerDay) / MsPerHour,
                         (distance % MsPerHour) / MsPerMinute, (distance % MsPerMinute) / MsPerSecond);
      SplitsBack(distance);
      c
  }

  /** The arithmetic behind `CountdownAt`: the four quotients put back
      together lose less than a second. */
  lemma SplitsBack(d: nat)
    ensures (d % 86400000) / 3600000 < 24
    ensures (d % 3600000) / 60000 < 60 && (d % 60000) / 1000 < 60
    ensures var m := (d / 86400000) * 86400000 + ((d % 86400000) / 3600000) * 3600000
                   + ((d % 3600000) / 60000) * 60000 + ((d % 60000) / 1000) * 1000;
            m <= d < m + 1000
  {
    var dd, rd := d / 86400000, d % 86400000;
    var h, rh := rd / 3600000, rd % 3600000;
    var mi, rm := rh / 60000, rh % 60000;
    assert d == dd * 86400000 + rd;
    assert rd == h * 3600000 + rh;
    assert rh == mi * 60000 + rm;
    assert d == (dd * 24 + h) * 3600000 + rh;
    assert d % 3600000 == rh;
    assert d == ((dd * 24 + h) * 60 + mi) * 60000 + rm;
    assert d % 60000 == rm;
  }

  /** The countdown is the only decomposition in range that reaches the
      distance to within a second. */
  lemma CountdownUnique(distance: int, c: Countdown)
    requires distance > 0 && InRange(c)
    requires Milliseconds(c) <= distance < Milliseconds(c) + MsPerSecond
    ensures c == CountdownAt(distance)
  {
    var e := CountdownAt(distance);
    DecompositionInjective(c, e, distance);
  }

  /** Two in-range decompositions within a second of the same distance are equal. */
  lemma DecompositionInjective(a: Countdown, b: Countdown, d: int)
    requires InRange(a) && InRange(b)
    requires Milliseconds(a) <= d < Milliseconds(a) + MsPerSecond
    requires Milliseconds(b) <= d < Milliseconds(b) + MsPerSecond
    ensures a == b
  {
    var sa := a.days * 86400 + a.hours * 3600 + a.minutes * 60 + a.seconds;
    var sb := b.days * 86400 + b.hours * 3600 + b.minutes * 60 + b.seconds;
    assert Milliseconds(a) == sa * 1000 && Milliseconds(b) == sb * 1000;
    assert sa == sb;
    var ma := a.days * 1440 + a.hours * 60 + a.minutes;
    var mb := b.days * 1440 + b.hours * 60 + b.minutes;
    assert sa == ma * 60 + a.seconds && sb == mb * 60 + b.seconds;
    assert ma == mb && a.seconds == b.seconds;
    var ha := a.days * 24 + a.hours;
    var hb := b.days * 24 + b.hours;
    assert ma == ha * 60 + a.minutes && mb == hb * 60 + b.minutes;
    assert ha == hb && a.minutes == b.minutes;
    assert a.days == b.days && a.hours == b.hours;
  }

  /** `HH:MM:SS` with each part `padStart(2, "0")`, as the flip counter shows it. */
  function ClockText(c: Countdown): string {
    TwoDigits(c.hours) + ":" + TwoDigits(c.minutes) + ":" + TwoDigits(c.seconds)
  }

  /** Every in-range countdown renders as exactly two digits, a colon, two
      digits, a colon and two digits, which read back as its hours, minutes
      and seconds. */
  lemma ClockTextLayout(c: Countdown)
    requires InRange(c)
    ensures var s := ClockText(c);
            && |s| == 8 && s[2] == ':' && s[5] == ':'
            && IsDigits(s[0..2]) && IsDigits(s[3..5]) && IsDigits(s[6..8])
            && DigitsValue(s[0..2]) == c.hours
            && DigitsValue(s[3..5]) == c.minutes
            && DigitsValue(s[6..8]) == c.seconds
  {
    var h, m, sec := TwoDigits(c.hours), TwoDigits(c.minutes), TwoDigits(c.seconds);
    TwoDigitsRoundTrip(c.hours);
    TwoDigitsRoundTrip(c.minutes);
    TwoDigitsRoundTrip(c.seconds);
    Separated(h, m, sec, ":");
    assert ClockText(c) == h + ":" + m + ":" + sec;
  }

  /** The status effect: a guest when no user is stored, otherwise the first of
      host, organizer with MODIFY, REGISTERED, PENDING, and "none" after that.
      Events have no allowed-type check. */
  function ResolveEventStatus(hasUser: bool, v: Viewer): (s: UserStatus)
    ensures s == Guest <==> !hasUser
    ensures s == Host <==> hasUser && v.isHost
    ensures s == Organizer <==> hasUser && !v.isHost && CanModify(v)
    ensures s == Registered <==>
              hasUser && !v.isHost && !CanModify(v) && v.attendeeStatus == Some("REGISTERED")
    ensures s == Pending <==>
              hasUser && !v.isHost && !CanModify(v) && v.attendeeStatus == Some("PENDING")
    ensures s == NoRole <==>
              hasUser && !v.isHost && !CanModify(v)
              && v.attendeeStatus != Some("REGISTERED") && v.attendeeStatus != Some("PENDING")
    ensures s != NotAllowed && s != Unresolved && s != Registering
  {
    if !hasUser then Guest
    else if v.isHost then Host
    else if CanModify(v) then Organizer
    else if v.attendeeStatus == Some("REGISTERED") then Registered
    else if v.attendeeStatus == Some("PENDING") then Pending
    else NoRole
  }

  /** `renderButton`: host, organizer, registered and pending are shown as
      disabled badges, a guest gets a login prompt, and every other status
      (none, or anything unknown) the register button, disabled while loading. */
  function EventButton(status: UserStatus, loading: bool): (b: Button)
    ensures status in {Host, Organizer, Registered, Pending} ==> b.disabled && b.onClick == NoAction
    ensures b.onClick == PromptLogin <==> status == Guest
    ensures b.onClick == Register <==> status !in {Host, Organizer, Registered, Pending, Guest}
    ensures Clickable(b) <==>
              status == Guest || (status !in {Host, Organizer, Registered, Pending} && !loading)
  {
    match status
    case Host => Button("YOU ARE HOST", NoAction, true)
    case Organizer => Button("YOU ARE ORGANIZER", NoAction, true)
    case Registered => Button("REGISTERED", NoAction, true)
    case Pending => Button("PENDING", NoAction, true)
    case Guest => Button("LOGIN TO JOIN", PromptLogin, false)
    case _ => RegisterNowButton(loading)
  }

  /** The component's state: `countdown`, `userStatus` and `loading`. */
  class EventView {
    var countdown: Countdown
    var userStatus: UserStatus
    var loading: bool

    constructor ()
      ensures countdown == Countdown(0, 0, 0, 0) && userStatus == Unresolved && !loading
    {
      countdown := Countdown(0, 0, 0, 0);
      userStatus := Unresolved;
      loading := false;
    }

    /** One interval callback; `stop` is the `clearInterval` when the start is reached. */
    method Tick(start: int, now: int) returns (stop: bool)
      modifies this
      ensures countdown == CountdownAt(start - now)
      ensures stop <==> start - now <= 0
      ensures userStatus == old(userStatus) && loading == old(loading)
    {
      var distance := start - now;
      stop := distance <= 0;
      countdown := CountdownAt(distance);
    }

    /** The status effect, run once per event id. */
    method ResolveStatus(hasUser: bool, v: Viewer)
      modifies this
      ensures userStatus == ResolveEventStatus(hasUser, v)
      ensures countdown == old(countdown) && loading == old(loading)
    {
      userStatus := ResolveEventStatus(hasUser, v);
    }

    /** `handleRegister` given how `registerForEvent` settled: a success moves
        the status to pending, a failure leaves it; `loading` ends false.
        `toast` is the translation key of the message shown. */
    method HandleRegister(call: Settled<()>) returns (toast: string)
      modifies this
      ensures !loading && countdown == old(countdown)
      ensures userStatus == (if call.Resolved? then Pending else old(userStatus))
      ensures toast == (if call.Resolved? then "REGISTER_SUCCESS" else "REGISTER_FAILED")
      ensures call.Resolved? ==> RenderButton() == Button("PENDING", NoAction, true)
    {
      loading := true;
      if call.Resolved? {
        toast := "REGISTER_SUCCESS";
        userStatus := Pending;
      } else {
        toast := "REGISTER_FAILED";
      }
      loading := false;
    }

    /** `renderButton`: a click does something only for a guest, or for a
        viewer with no role while no registration is in flight. */
    function RenderButton(): (b: Button)
      reads this
      ensures Clickable(b) <==> userStatus == Guest || (userStatus !in {Host, Organizer, Registered, Pending} && !loading)
      ensures b.onClick == Register ==> userStatus !in {Guest, Host, Organizer, Registered, Pending}
    {
      EventButton(userStatus, loading)
    }
  }
}
