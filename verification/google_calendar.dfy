/** Calendar event shaping and the error policy of the calendar module: the
    start time is read from the booking's `HH:MM` time (the `flexible`
    sentinel standing for 21:00), the end time adds a per-tour duration, and
    the colour, label, attendee list, reminders, location and status are
    fixed by table.

    Times are minutes after midnight of the booking's date, in local time;
    a time past midnight denotes the next day, as `Date.setHours` rolls over.
    The Google client, the credential parsing and the moon-age arithmetic are
    parameters. */
module GoogleCalendar {
  import opened Wrappers
  import opened Text
  import opened Schedule
  import opened MoonPhase

  /** `const [hours, minutes] = t.split(':')`: the first two fields; the second
      is `None` (`undefined`) when `t` has no colon. */
  function SplitClock(t: string): (r: (string, Option<string>))
    ensures r.0 == BeforeFirst(t, ':')
    ensures r.1.None? <==> |BeforeFirst(t, ':')| == |t|
  {
    var hours := BeforeFirst(t, ':');
    if |hours| == |t| then (hours, None)
    else (hours, Some(BeforeFirst(t[|hours| + 1..], ':')))
  }

  /** `setHours(parseInt(hours), parseInt(minutes), 0, 0)` on the booking's
      midnight, as minutes after that midnight; `None` when either part is
      `NaN`, which leaves an invalid date. */
  function ClockMinutes(t: string): Option<int> {
    var (hours, minutes) := SplitClock(t);
    match ParseInt(hours)
    case None => None
    case Some(h) =>
      match minutes
      case None => None
      case Some(m) =>
        match ParseInt(m)
        case None => None
        case Some(mm) => Some(h * 60 + mm)
  }

  /** The `flexible` sentinel is replaced by the default start 21:00 before
      the time is read. */
  function ResolveTime(t: string): (r: string)
    ensures t != "flexible" ==> r == t
  {
    if t == "flexible" then "21:00" else t
  }

  function StartMinutes(t: string): Option<int> {
    ClockMinutes(ResolveTime(t))
  }

  /** The concrete time a slot stands for on the calendar. */
  function ResolvedMinute(slot: Slot): MinuteOfDay {
    match slot
    case At(m) => m
    case Flexible => DefaultStart
  }

  lemma DigitValueOfDigitChar(d: nat)
    requires d < 10
    ensures DigitValue(DigitChar(d), 10) == Some(d)
  {
  }

  lemma ParseIntOfPad2(n: nat)
    requires n < 100
    ensures ParseInt(Pad2(n)) == Some(n)
  {
    var p := Pad2(n);
    TrimStartUnchanged(p);
    DigitValueOfDigitChar(n / 10);
    DigitValueOfDigitChar(n % 10);
    DigitPrefixOfDigits(p, 10);
    var a := p[..1];
    assert a == [DigitChar(n / 10)];
    assert a[..0] == [];
    assert DigitsValue(a, 10) == n / 10;
    assert DigitsValue(p, 10) == DigitsValue(a, 10) * 10 + n % 10;
  }

  /** Two colon-free fields joined by a colon split back into them. */
  lemma SplitOfJoin(a: string, b: string)
    requires forall i :: 0 <= i < |a| ==> a[i] != ':'
    requires forall i :: 0 <= i < |b| ==> b[i] != ':'
    ensures SplitClock(a + ":" + b) == (a, Some(b))
  {
    var t := a + ":" + b;
    assert t == a + [':'] + b;
    BeforeFirstOfJoin(a, ':', b);
    assert t[|a| + 1..] == b;
    BeforeFirstOfFree(b, ':');
  }

  /** An `HH:MM` text written for a minute of the day reads back as that
      minute. */
  lemma ReadsBack(t: string, k: MinuteOfDay)
    requires t == SlotText(At(k))
    ensures ClockMinutes(t) == Some(k)
  {
    var h, m := k / 60, k % 60;
    var a, b := Pad2(h), Pad2(m);
    assert t == a + ":" + b;
    SplitOfJoin(a, b);
    ParseIntOfPad2(h);
    ParseIntOfPad2(m);
    ClockOfParts(t, a, b, h, m, k);
  }

  /** A text whose fields read as `h` and `m` is `h * 60 + m` minutes. */
  lemma ClockOfParts(t: string, a: string, b: string, h: int, m: int, k: int)
    requires SplitClock(t) == (a, Some(b))
    requires ParseInt(a) == Some(h) && ParseInt(b) == Some(m)
    requires k == h * 60 + m
    ensures ClockMinutes(t) == Some(k)
  {
  }

  /** Every time the booking handlers store reads back as the time it stands
      for: `HH:MM` as itself and `flexible` as 21:00. */
  lemma StoredTimeReadsBack(slot: Slot)
    ensures StartMinutes(SlotText(slot)) == Some(ResolvedMinute(slot))
  {
    match slot
    case Flexible =>
      assert ResolveTime("flexible") == SlotText(At(DefaultStart));
      ReadsBack(ResolveTime("flexible"), DefaultStart);
    case At(m) =>
      var t := SlotText(At(m));
      assert |t| == 5;
      assert ResolveTime(t) == t;
      ReadsBack(t, m);
  }

  /** How long each tour lasts, in minutes: 2.5 hours for regular tours and
      for any unlisted type, 3 hours private, 5 hours astrophotography. */
  function DurationMinutes(tour: TourType): nat {
    match tour
    case Regular => 150
    case Private => 180
    case Astrophoto => 300
    case Unlisted => 150
  }

  /** The end time: whole hours are added with `setHours`, the fractional hour
      with `setMinutes`. */
  function EndMinutes(start: int, tour: TourType): (end: int)
    ensures end - start == DurationMinutes(tour)
  {
    var d := DurationMinutes(tour);
    start + (d / 60) * 60 + d % 60
  }

  /** The calendar colour identifier, with blue (`9`) for unlisted types. */
  function EventColor(tourType: string): string {
    match ClassifyTourName(tourType)
    case Regular => "9"
    case Private => "5"
    case Astrophoto => "10"
    case Unlisted => "9"
  }

  /** The three listed tour types get three distinct colours; everything else
      shares the regular tour's. */
  lemma EventColorsDistinct(other: string)
    requires ClassifyTourName(other) == Unlisted
    ensures EventColor("regular") != EventColor("private")
    ensures EventColor("private") != EventColor("astrophoto")
    ensures EventColor("regular") != EventColor("astrophoto")
    ensures EventColor(other) == EventColor("regular")
  {
  }

  /** The display label; an unlisted tour type is shown as given. */
  function TourLabel(tourType: string): string {
    match ClassifyTourName(tourType)
    case Regular => "Tour Astronómico Regular"
    case Private => "Tour Privado VIP"
    case Astrophoto => "Tour Astrofotografía"
    case Unlisted => tourType
  }

  datatype ReminderMethod = EmailReminder | PopupReminder

  datatype Reminder = Reminder(via: ReminderMethod, minutesBefore: nat)

  datatype Attendee = Attendee(email: string, displayName: string, responseStatus: string)

  datatype EventStatus = Tentative

  /** The booking as this module receives it; an absent e-mail or message is
      the empty string (both are falsy in the source). */
  datatype CalendarBooking = CalendarBooking(
    bookingId: string,
    time: string,
    tourType: string,
    name: string,
    email: string,
    message: string)

  const Location: string := "San Pedro de Atacama, Chile"

  /** The parts of the event resource the module fills in. `contactEmail` and
      `comment` are what the description shows for the e-mail and the message. */
  datatype CalendarEvent = CalendarEvent(
    tourLabel: string,
    start: int,
    end: int,
    location: string,
    attendees: seq<Attendee>,
    reminders: seq<Reminder>,
    colorId: string,
    status: EventStatus,
    contactEmail: string,
    comment: string,
    moon: Phase)

  /** `createCalendarEvent`. `None` when the time cannot be read: the invalid
      date makes `toISOString` throw. `moonAge` is the moon's age on the day,
      in hundredths of a day. */
  function CreateCalendarEvent(b: CalendarBooking, moonAge: int): (r: Option<CalendarEvent>)
    ensures r.Some? <==> StartMinutes(b.time).Some?
    ensures r.Some? ==>
      && r.value.start == StartMinutes(b.time).value
      && r.value.end - r.value.start == DurationMinutes(ClassifyTourName(b.tourType))
      && r.value.status == Tentative
      && r.value.location == Location
      && r.value.reminders == [Reminder(EmailReminder, 24 * 60), Reminder(PopupReminder, 2 * 60)]
      && (b.email == "" <==> r.value.attendees == [])
      && (b.email != "" ==> r.value.attendees == [Attendee(b.email, b.name, "needsAction")])
      && r.value.contactEmail == (if b.email == "" then "No especificado" else b.email)
      && r.value.colorId == EventColor(b.tourType)
  {
    match StartMinutes(b.time)
    case None => None
    case Some(start) =>
      var tour := ClassifyTourName(b.tourType);
      Some(CalendarEvent(
        TourLabel(b.tourType),
        start,
        EndMinutes(start, tour),
        Location,
        if b.email != "" then [Attendee(b.email, b.name, "needsAction")] else [],
        [Reminder(EmailReminder, 24 * 60), Reminder(PopupReminder, 2 * 60)],
        EventColor(b.tourType),
        Tentative,
        if b.email != "" then b.email else "No especificado",
        if b.message != "" then b.message else "Sin comentarios adicionales",
        PhaseOfAge(moonAge)))
  }

  /** A booking whose time was stored by a booking handler always yields an
      event, private tours included: it starts at the slot's time (21:00 for
      `flexible`) and lasts the tour's duration. */
  lemma HandlerTimesYieldEvents(b: CalendarBooking, slot: Slot, moonAge: int)
    requires b.time == SlotText(slot)
    ensures CreateCalendarEvent(b, moonAge).Some?
    ensures CreateCalendarEvent(b, moonAge).value.start == ResolvedMinute(slot)
    ensures CreateCalendarEvent(b, moonAge).value.end
      == ResolvedMinute(slot) + DurationMinutes(ClassifyTourName(b.tourType))
  {
    StoredTimeReadsBack(slot);
  }

  /** Which of the module's external calls failed. */
  datatype Stage = ParseCredentials | Authorize | BuildEvent | InsertEvent

  /** Whether each external call of `addToGoogleCalendar` succeeds. */
  datatype CalendarApi = CalendarApi(credentialsParse: bool, authorize: bool, insert: bool)

  /** The two environment settings, as "present and non-empty". */
  datatype CalendarConfig = CalendarConfig(hasServiceAccountKey: bool, hasCalendarId: bool)

  /** What `addToGoogleCalendar` does: return quietly without credentials,
      return the inserted event, or rethrow the failure of a stage. */
  datatype CalendarResult = NotConfigured | Inserted(event: CalendarEvent) | Rethrown(stage: Stage)

  function AddToGoogleCalendar(cfg: CalendarConfig, api: CalendarApi, b: CalendarBooking, moonAge: int): (r: CalendarResult)
    ensures r == NotConfigured <==> !cfg.hasServiceAccountKey || !cfg.hasCalendarId
    ensures r.Inserted? ==> Some(r.event) == CreateCalendarEvent(b, moonAge)
  {
    if !cfg.hasServiceAccountKey || !cfg.hasCalendarId then NotConfigured
    else if !api.credentialsParse then Rethrown(ParseCredentials)
    else if !api.authorize then Rethrown(Authorize)
    else match CreateCalendarEvent(b, moonAge)
      case None => Rethrown(BuildEvent)
      case Some(event) => if api.insert then Inserted(event) else Rethrown(InsertEvent)
  }

  /** With credentials configured, the call either inserts the event or
      throws: no failure is swallowed. */
  lemma ConfiguredFailuresRethrown(cfg: CalendarConfig, api: CalendarApi, b: CalendarBooking, moonAge: int)
    requires cfg.hasServiceAccountKey && cfg.hasCalendarId
    ensures var r := AddToGoogleCalendar(cfg, api, b, moonAge);
      r.Inserted? || r.Rethrown?
    ensures AddToGoogleCalendar(cfg, api, b, moonAge).Inserted?
      <==> api.credentialsParse && api.authorize && api.insert && StartMinutes(b.time).Some?
  {
  }
}
