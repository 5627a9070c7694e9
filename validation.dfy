/** The request-body validation chains (validation.middleware.ts). Each chain
    checks its fields in order; within a field the validators run in order,
    and the controller reports the message of the first failure overall, so
    each chain is modelled as the first error message it produces. */
module Validation {
  import opened Common
  import opened JsText

  // ---------------------------------------------------------------------
  // Request bodies, as the validators see them after JSON parsing.

  /** A `date` value: text an ISO-8601 check accepts (with the instant it
      denotes, in epoch milliseconds) or any other text. */
  datatype DateText = Iso(ms: int) | NotIso(raw: string)

  /** A numeric field: a value the integer check reads as the integer `n`,
      or anything else (a fraction, non-numeric text). */
  datatype NumberText = Whole(n: int) | NotWhole

  /** A flag field: a value the boolean check accepts (denoting `b`), or not. */
  datatype FlagText = Flag(b: bool) | NotFlag

  /** A roster entry as a client may send it in an update body. */
  datatype ParticipantInput = ParticipantInput(userId: UserId, registeredAt: Option<int>)

  /** An event request body; `None` is a field the body does not carry. */
  datatype EventBody = EventBody(
    title: Option<string>,
    description: Option<string>,
    date: Option<DateText>,
    time: Option<string>,
    location: Option<string>,
    maxParticipants: Option<NumberText>,
    isActive: Option<FlagText>,
    organizerId: Option<UserId>,
    participants: Option<seq<ParticipantInput>>)

  const EmptyBody := EventBody(None, None, None, None, None, None, None, None, None)

  /** A user sign-up or login body. */
  datatype UserBody = UserBody(name: Option<string>, email: Option<string>,
                               password: Option<string>, role: Option<string>)

  // ---------------------------------------------------------------------
  // The shared rules.

  /** Chains two checks: the first failure wins. */
  function OrElse(first: Option<string>, next: Option<string>): (r: Option<string>)
    ensures r.None? <==> first.None? && next.None?
    ensures first.Some? ==> r == first
    ensures first.None? ==> r == next
  {
    if first.Some? then first else next
  }

  /** A field chain that starts with `.trim()` sees the trimmed text; an
      absent field reads as the empty string. */
  function FieldText(v: Option<string>): string
  {
    if v.Some? then Trim(v.value) else []
  }

  predicate IsDigit(c: char)
  {
    '0' <= c <= '9'
  }

  /** The hour alternative `[0-1]?[0-9]|2[0-3]` of the time pattern. */
  predicate HourPart(t: string)
  {
    || (|t| == 1 && IsDigit(t[0]))
    || (|t| == 2 && '0' <= t[0] <= '1' && IsDigit(t[1]))
    || (|t| == 2 && t[0] == '2' && '0' <= t[1] <= '3')
  }

  /** The minute part `[0-5][0-9]` of the time pattern. */
  predicate MinutePart(t: string)
  {
    |t| == 2 && '0' <= t[0] <= '5' && IsDigit(t[1])
  }

  /** The anchored pattern `^([0-1]?[0-9]|2[0-3]):[0-5][0-9]$`. The hour part
      holds no colon, so the colon stands at index 1 or 2. */
  predicate TimeMatches(s: string)
  {
    || (|s| >= 2 && s[1] == ':' && HourPart(s[..1]) && MinutePart(s[2..]))
    || (|s| >= 3 && s[2] == ':' && HourPart(s[..2]) && MinutePart(s[3..]))
  }

  /** The date rule: an event date may not lie before midnight of today
      (`startOfToday`, local time); any instant of today is accepted. */
  predicate NotBeforeToday(ms: int, startOfToday: int)
  {
    !(ms < startOfToday)
  }

  // ---------------------------------------------------------------------
  // The time pattern against an independent description of clock times.

  function Digit(d: nat): char
    requires d < 10
  {
    ('0' as int + d) as char
  }

  function DigitValue(c: char): nat
    requires IsDigit(c)
  {
    c as int - '0' as int
  }

  function TwoDigits(n: nat): string
    requires n < 100
  {
    [Digit(n / 10), Digit(n % 10)]
  }

  /** A clock time `H:MM` (hour below ten, unpadded) or `HH:MM`. */
  function ClockTime(h: nat, m: nat, padded: bool): string
    requires h < 24 && m < 60 && (!padded ==> h < 10)
  {
    (if padded then TwoDigits(h) else [Digit(h)]) + ":" + TwoDigits(m)
  }

  /** Every clock time from 0:00 to 23:59, padded or (below ten) not, matches. */
  lemma ClockTimeMatches(h: nat, m: nat, padded: bool)
    requires h < 24 && m < 60 && (!padded ==> h < 10)
    ensures TimeMatches(ClockTime(h, m, padded))
  {
    var s := ClockTime(h, m, padded);
    if padded {
      assert s[..2] == TwoDigits(h) && s[3..] == TwoDigits(m);
    } else {
      assert s[..1] == [Digit(h)] && s[2..] == TwoDigits(m);
    }
  }

  /** The hour and minute a matching time denotes. */
  function HourOf(s: string): (h: nat)
    requires TimeMatches(s)
    ensures h < 24
  {
    if s[1] == ':' then DigitValue(s[0]) else 10 * DigitValue(s[0]) + DigitValue(s[1])
  }

  function MinuteOf(s: string): (m: nat)
    requires TimeMatches(s)
    ensures m < 60
  {
    var k := if s[1] == ':' then 2 else 3;
    10 * DigitValue(s[k]) + DigitValue(s[k + 1])
  }

  /** Every matching text is a clock time: the pattern accepts exactly the
      clock times `H:MM` and `HH:MM` with hour 0-23 and minute 00-59. */
  lemma MatchesAreClockTimes(s: string)
    requires TimeMatches(s)
    ensures s[1] == ':' ==> HourOf(s) < 10
    ensures s == ClockTime(HourOf(s), MinuteOf(s), s[1] != ':')
  {
    var h, m := HourOf(s), MinuteOf(s);
    var k := if s[1] == ':' then 2 else 3;
    assert |s| == k + 2;
    assert TwoDigits(m) == [s[k], s[k + 1]];
    if s[1] == ':' {
      assert [Digit(h)] == [s[0]];
      assert s == [s[0]] + ":" + [s[2], s[3]];
    } else {
      assert TwoDigits(h) == [s[0], s[1]];
      assert s == [s[0], s[1]] + ":" + [s[3], s[4]];
    }
  }

  lemma TimeExamples()
    ensures TimeMatches("9:05") && TimeMatches("09:00") && TimeMatches("23:59")
    ensures !TimeMatches("24:00") && !TimeMatches("09:60") && !TimeMatches("9:5")
  {
  }

  // ---------------------------------------------------------------------
  // createEventValidation

  function CreateTitleError(title: Option<string>): (r: Option<string>)
    ensures r.None? <==> title.Some? && 3 <= VisibleLength(Trim(title.value)) <= 100
  {
    var t := FieldText(title);
    if t == [] then Some("Event title is required")
    else if !(3 <= VisibleLength(t) <= 100) then Some("Title must be between 3 and 100 characters")
    else None
  }

  function CreateDescriptionError(description: Option<string>): (r: Option<string>)
    ensures r.None? <==> description.Some? && 10 <= VisibleLength(Trim(description.value)) <= 1000
  {
    var d := FieldText(description);
    if d == [] then Some("Event description is required")
    else if !(10 <= VisibleLength(d) <= 1000) then Some("Description must be between 10 and 1000 characters")
    else None
  }

  /** `notEmpty` does not trim here, so only absent or empty text is "required". */
  function CreateDateError(date: Option<DateText>, startOfToday: int): (r: Option<string>)
    ensures r.None? <==> date.Some? && date.value.Iso? && date.value.ms >= startOfToday
  {
    match date
    case None => Some("Event date is required")
    case Some(NotIso(raw)) =>
      if raw == [] then Some("Event date is required") else Some("Please provide a valid date")
    case Some(Iso(ms)) =>
      if NotBeforeToday(ms, startOfToday) then None else Some("Event date cannot be in the past")
  }

  function CreateTimeError(time: Option<string>): (r: Option<string>)
    ensures r.None? <==> time.Some? && TimeMatches(Trim(time.value))
  {
    var t := FieldText(time);
    if t == [] then Some("Event time is required")
    else if !TimeMatches(t) then Some("Please provide a valid time in HH:MM format")
    else None
  }

  function CreateLocationError(location: Option<string>): (r: Option<string>)
    ensures r.None? <==> location.Some? && Trim(location.value) != []
  {
    if FieldText(location) == [] then Some("Event location is required") else None
  }

  /** `maxParticipants` is optional; when present it must be an integer >= 1. */
  function MaxParticipantsError(max: Option<NumberText>): (r: Option<string>)
    ensures r.None? <==> ValidMaxParticipants(max)
  {
    match max
    case None => None
    case Some(Whole(n)) => if n >= 1 then None else Some("Maximum participants must be at least 1")
    case Some(NotWhole) => Some("Maximum participants must be at least 1")
  }

  predicate ValidMaxParticipants(max: Option<NumberText>)
  {
    max.Some? ==> max.value.Whole? && max.value.n >= 1
  }

  /** The first message the create chain produces; it passes exactly when
      every field meets its rule. */
  function CreateEventErrors(b: EventBody, startOfToday: int): (r: Option<string>)
    ensures r.None? <==> CreateBodyValid(b, startOfToday)
  {
    OrElse(CreateTitleError(b.title),
    OrElse(CreateDescriptionError(b.description),
    OrElse(CreateDateError(b.date, startOfToday),
    OrElse(CreateTimeError(b.time),
    OrElse(CreateLocationError(b.location),
           MaxParticipantsError(b.maxParticipants))))))
  }

  /** What the create chain demands, stated field by field. */
  ghost predicate CreateBodyValid(b: EventBody, startOfToday: int)
  {
    && b.title.Some? && 3 <= VisibleLength(Trim(b.title.value)) <= 100
    && b.description.Some? && 10 <= VisibleLength(Trim(b.description.value)) <= 1000
    && b.date.Some? && b.date.value.Iso? && b.date.value.ms >= startOfToday
    && b.time.Some? && TimeMatches(Trim(b.time.value))
    && b.location.Some? && Trim(b.location.value) != []
    && ValidMaxParticipants(b.maxParticipants)
  }

  /** A body with only a title is refused: the description is the first
      missing field when the title itself is acceptable. */
  lemma TitleOnlyBodyFails(title: string, startOfToday: int)
    requires 3 <= VisibleLength(Trim(title)) <= 100
    ensures CreateEventErrors(EmptyBody.(title := Some(title)), startOfToday)
              == Some("Event description is required")
  {
  }

  // ---------------------------------------------------------------------
  // updateEventValidation: every field optional, checked only when present.

  function UpdateTitleError(title: Option<string>): Option<string>
  {
    if title.Some? && !(3 <= VisibleLength(Trim(title.value)) <= 100)
    then Some("Title must be between 3 and 100 characters") else None
  }

  function UpdateDescriptionError(description: Option<string>): Option<string>
  {
    if description.Some? && !(10 <= VisibleLength(Trim(description.value)) <= 1000)
    then Some("Description must be between 10 and 1000 characters") else None
  }

  function UpdateDateError(date: Option<DateText>, startOfToday: int): Option<string>
  {
    match date
    case None => None
    case Some(NotIso(_)) => Some("Please provide a valid date")
    case Some(Iso(ms)) =>
      if NotBeforeToday(ms, startOfToday) then None else Some("Event date cannot be in the past")
  }

  function UpdateTimeError(time: Option<string>): Option<string>
  {
    if time.Some? && !TimeMatches(Trim(time.value))
    then Some("Please provide a valid time in HH:MM format") else None
  }

  function UpdateLocationError(location: Option<string>): Option<string>
  {
    if location.Some? && Trim(location.value) == [] then Some("Location cannot be empty") else None
  }

  function UpdateIsActiveError(isActive: Option<FlagText>): Option<string>
  {
    if isActive == Some(NotFlag) then Some("isActive must be a boolean") else None
  }

  /** The first message the update chain produces; it passes exactly when
      every field the body carries meets its rule. */
  function UpdateEventErrors(b: EventBody, startOfToday: int): (r: Option<string>)
    ensures r.None? <==> UpdateBodyValid(b, startOfToday)
  {
    OrElse(UpdateTitleError(b.title),
    OrElse(UpdateDescriptionError(b.description),
    OrElse(UpdateDateError(b.date, startOfToday),
    OrElse(UpdateTimeError(b.time),
    OrElse(UpdateLocationError(b.location),
    OrElse(MaxParticipantsError(b.maxParticipants),
           UpdateIsActiveError(b.isActive)))))))
  }

  /** What the update chain demands of the fields a body carries. The chain
      does not look at `organizerId` or `participants`. */
  ghost predicate UpdateBodyValid(b: EventBody, startOfToday: int)
  {
    && (b.title.Some? ==> 3 <= VisibleLength(Trim(b.title.value)) <= 100)
    && (b.description.Some? ==> 10 <= VisibleLength(Trim(b.description.value)) <= 1000)
    && (b.date.Some? ==> b.date.value.Iso? && b.date.value.ms >= startOfToday)
    && (b.time.Some? ==> TimeMatches(Trim(b.time.value)))
    && (b.location.Some? ==> Trim(b.location.value) != [])
    && ValidMaxParticipants(b.maxParticipants)
    && (b.isActive.Some? ==> b.isActive.value.Flag?)
  }

  /** A body carrying none of the checked fields passes the update chain. */
  lemma EmptyUpdatePasses(startOfToday: int, organizerId: Option<UserId>, participants: Option<seq<ParticipantInput>>)
    ensures UpdateEventErrors(EmptyBody.(organizerId := organizerId, participants := participants), startOfToday).None?
  {
  }

  /** An instant earlier today is still accepted by the date rule, while an
      instant before midnight is not. */
  lemma DateRuleIsDateOnly(ms: int, startOfToday: int, now: int)
    requires startOfToday <= ms < now
    ensures CreateDateError(Some(Iso(ms)), startOfToday).None?
    ensures UpdateDateError(Some(Iso(ms)), startOfToday).None?
    ensures CreateDateError(Some(Iso(startOfToday - 1)), startOfToday) == Some("Event date cannot be in the past")
  {
  }

  // ---------------------------------------------------------------------
  // registerValidation and loginValidation (user bodies). `isEmail` is the
  // e-mail syntax check, which this model takes as given.

  function EmailError(email: Option<string>, isEmail: string -> bool): Option<string>
  {
    var e := FieldText(email);
    if e == [] then Some("Email is required")
    else if !isEmail(e) then Some("Please provide a valid email")
    else None
  }

  function NameError(name: Option<string>): Option<string>
  {
    var n := FieldText(name);
    if n == [] then Some("Name is required")
    else if !(2 <= VisibleLength(n) <= 50) then Some("Name must be between 2 and 50 characters")
    else None
  }

  /** The password chain does not trim. */
  function PasswordError(password: Option<string>): Option<string>
  {
    if password.None? || password.value == [] then Some("Password is required")
    else if VisibleLength(password.value) < 6 then Some("Password must be at least 6 characters long")
    else None
  }

  /** `role` is optional; when present it must be one of the two role names. */
  function RoleError(role: Option<string>): Option<string>
  {
    if role.Some? && role.value != "organizer" && role.value != "attendee"
    then Some("Role must be either organizer or attendee") else None
  }

  function SignUpErrors(b: UserBody, isEmail: string -> bool): (r: Option<string>)
    ensures r.None? <==> SignUpValid(b, isEmail)
  {
    OrElse(NameError(b.name),
    OrElse(EmailError(b.email, isEmail),
    OrElse(PasswordError(b.password),
           RoleError(b.role))))
  }

  /** What sign-up demands: a trimmed name of 2-50 characters, an e-mail,
      an untrimmed password of at least 6 characters, and a role, if given,
      of "organizer" or "attendee". */
  ghost predicate SignUpValid(b: UserBody, isEmail: string -> bool)
  {
    && b.name.Some? && 2 <= VisibleLength(Trim(b.name.value)) <= 50
    && b.email.Some? && Trim(b.email.value) != [] && isEmail(Trim(b.email.value))
    && b.password.Some? && VisibleLength(b.password.value) >= 6
    && (b.role.Some? ==> b.role.value in {"organizer", "attendee"})
  }

  /** A password is not trimmed: six spaces are an acceptable password,
      while a five-character one is refused. */
  lemma PasswordExamples(name: string, email: string, isEmail: string -> bool)
    requires 2 <= VisibleLength(Trim(name)) <= 50 && Trim(email) != [] && isEmail(Trim(email))
    ensures SignUpErrors(UserBody(Some(name), Some(email), Some("      "), None), isEmail).None?
    ensures SignUpErrors(UserBody(Some(name), Some(email), Some("12345"), None), isEmail)
              == Some("Password must be at least 6 characters long")
  {
  }

  function LoginErrors(b: UserBody, isEmail: string -> bool): (r: Option<string>)
    ensures r.None? <==> (EmailError(b.email, isEmail).None? && b.password.Some? && b.password.value != [])
  {
    OrElse(EmailError(b.email, isEmail),
           if b.password.None? || b.password.value == [] then Some("Password is required") else None)
  }
}
