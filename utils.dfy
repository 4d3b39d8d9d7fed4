/** Date formatting and token expiry (src/lib/utils.ts). The `Date` object and
    `jwtDecode` are outside the model: `formatDate` takes the UTC components
    of the parsed date, and `isTokenExpired` the decoded payload. */
module Utils {
  import opened Outcomes
  import opened Text

  /** The UTC components of a parsed date: `getUTCFullYear`, `getUTCMonth`
      (0 for January), `getUTCDate`, `getUTCHours`, `getUTCMinutes`,
      `getUTCSeconds`. */
  datatype UtcFields = UtcFields(year: int, monthIndex: nat, day: nat, hours: nat, minutes: nat, seconds: nat)

  /** The ranges a valid `Date` yields. */
  predicate ValidFields(f: UtcFields) {
    f.monthIndex < 12 && 1 <= f.day <= 31 && f.hours < 24 && f.minutes < 60 && f.seconds < 60
  }

  datatype Formatted = Formatted(formattedDate: string, formattedTime: string)

  /** `formatDate`: `dd/mm/yyyy` and `hh:mm:ss`, with every part but the year
      padded to two digits. An invalid date (absent) has NaN components, which
      pad to themselves. */
  function FormatDate(date: Option<UtcFields>): Formatted {
    match date
    case None => Formatted("NaN/NaN/NaN", "NaN:NaN:NaN")
    case Some(f) =>
      Formatted(TwoDigits(f.day) + "/" + TwoDigits(f.monthIndex + 1) + "/" + IntString(f.year),
                TwoDigits(f.hours) + ":" + TwoDigits(f.minutes) + ":" + TwoDigits(f.seconds))
  }

  /** For a valid date, the date part is two digits of the day, "/", two
      digits of the month number (the month index plus one), "/", and the year
      unpadded; each part reads back as the component it shows. */
  lemma FormattedDateLayout(f: UtcFields)
    requires ValidFields(f)
    ensures var d := FormatDate(Some(f)).formattedDate;
            && |d| >= 7 && d[2] == '/' && d[5] == '/'
            && IsDigits(d[0..2]) && DigitsValue(d[0..2]) == f.day
            && IsDigits(d[3..5]) && DigitsValue(d[3..5]) == f.monthIndex + 1
            && d[6..] == IntString(f.year)
  {
    var dd, mm, y := TwoDigits(f.day), TwoDigits(f.monthIndex + 1), IntString(f.year);
    TwoDigitsRoundTrip(f.day);
    TwoDigitsRoundTrip(f.monthIndex + 1);
    Separated(dd, mm, y, "/");
    assert FormatDate(Some(f)).formattedDate == dd + "/" + mm + "/" + y;
  }

  /** For a valid date, the time part is two digits each of hours, minutes
      and seconds separated by ":", each reading back as its component. */
  lemma FormattedTimeLayout(f: UtcFields)
    requires ValidFields(f)
    ensures var t := FormatDate(Some(f)).formattedTime;
            && |t| == 8 && t[2] == ':' && t[5] == ':'
            && IsDigits(t[0..2]) && DigitsValue(t[0..2]) == f.hours
            && IsDigits(t[3..5]) && DigitsValue(t[3..5]) == f.minutes
            && IsDigits(t[6..8]) && DigitsValue(t[6..8]) == f.seconds
  {
    var hh, mi, ss := TwoDigits(f.hours), TwoDigits(f.minutes), TwoDigits(f.seconds);
    TwoDigitsRoundTrip(f.hours);
    TwoDigitsRoundTrip(f.minutes);
    TwoDigitsRoundTrip(f.seconds);
    Separated(hh, mi, ss, ":");
    assert FormatDate(Some(f)).formattedTime == hh + ":" + mi + ":" + ss;
  }

  /** Different days, months or years of valid dates give different date
      strings: the date part determines the calendar day. */
  lemma FormatDateInjective(f: UtcFields, g: UtcFields)
    requires ValidFields(f) && ValidFields(g)
    requires f.year >= 0 && g.year >= 0
    requires FormatDate(Some(f)).formattedDate == FormatDate(Some(g)).formattedDate
    ensures f.day == g.day && f.monthIndex == g.monthIndex && f.year == g.year
  {
    FormattedDateLayout(f);
    FormattedDateLayout(g);
    var s := FormatDate(Some(f)).formattedDate;
    assert Decimal(f.year) == s[6..] == Decimal(g.year);
    DecimalRoundTrip(f.year);
    DecimalRoundTrip(g.year);
  }

  /** The decoded token payload; `exp` is absent when the claim is. */
  datatype JwtPayload = JwtPayload(exp: Option<int>)

  /** `isTokenExpired`: a token that does not decode (absent) is expired, so
      is one whose `exp` is falsy (absent or 0); otherwise it is expired when
      `exp` is before the current whole second `Math.floor(Date.now() / 1000)`. */
  function IsTokenExpired(decoded: Option<JwtPayload>, nowMs: int): (expired: bool)
    ensures decoded.None? ==> expired
    ensures decoded.Some? && (decoded.value.exp.None? || decoded.value.exp == Some(0)) ==> expired
  {
    match decoded
    case None => true
    case Some(p) =>
      if p.exp.None? || p.exp.value == 0 then true
      else p.exp.value < nowMs / 1000
  }

  /** In milliseconds: a token with a non-zero `exp` is expired exactly from
      the start of the second after `exp`, so during the second `exp` it is
      still valid. */
  lemma ExpiredIffPastExpSecond(exp: int, nowMs: int)
    requires exp != 0
    ensures IsTokenExpired(Some(JwtPayload(Some(exp))), nowMs) <==> (exp + 1) * 1000 <= nowMs
    ensures !IsTokenExpired(Some(JwtPayload(Some(exp))), exp * 1000 + 999)
  {
    var q, r := nowMs / 1000, nowMs % 1000;
    assert nowMs == q * 1000 + r && 0 <= r < 1000;
    assert (exp * 1000 + 999) / 1000 == exp;
  }

  /** Once expired, a token stays expired. */
  lemma ExpiryIsMonotone(decoded: Option<JwtPayload>, now1: int, now2: int)
    requires now1 <= now2 && IsTokenExpired(decoded, now1)
    ensures IsTokenExpired(decoded, now2)
  {
    if decoded.Some? && decoded.value.exp.Some? && decoded.value.exp.value != 0 {
      ExpiredIffPastExpSecond(decoded.value.exp.value, now1);
      ExpiredIffPastExpSecond(decoded.value.exp.value, now2);
    }
  }
}
