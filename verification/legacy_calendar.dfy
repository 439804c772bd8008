/** The calendar integration the production booking endpoint actually calls:
    a local variant of the calendar module with a fixed two-hour event, one
    attendee built from whatever e-mail the caller passes, one-hour popup
    reminder, a single colour, and a try/catch that logs every failure
    instead of rethrowing it.

    The access-token request and the HTTP call are parameters; the
    pseudo-random moon line of the description is left out. */
module LegacyCalendar {
  import opened Wrappers
  import opened Text
  import opened JsValues
  import opened Schedule
  import opened BookingRecord
  import opened BookingHandler
  import opened GoogleCalendar

  /** The object `createCalendarEvent` receives. `time` is the stored slot
      text; every other field is whatever the caller put there. */
  datatype LegacyBooking = LegacyBooking(
    bookingId: string,
    time: string,
    tourType: JsValue,
    persons: JsValue,
    name: JsValue,
    email: JsValue,
    phone: JsValue,
    message: JsValue)

  /** An attendee without a response status; an `undefined` e-mail is dropped
      from the JSON the API receives. */
  datatype LegacyAttendee = LegacyAttendee(email: JsValue, displayName: JsValue)

  datatype LegacyEvent = LegacyEvent(
    tourLabel: string,
    start: int,
    end: int,
    attendees: seq<LegacyAttendee>,
    reminders: seq<Reminder>,
    location: string,
    colorId: string,
    contact: string,
    comment: string)

  /** The label table of this variant, which differs from the calendar
      module's in two of its three names. */
  function LegacyLabel(tourType: JsValue): (r: string)
    ensures var key := ToJsString(tourType);
      key != "regular" && key != "private" && key != "astrophoto" ==> r == key
    ensures r == "Tour Privado Exclusivo" <==> ToJsString(tourType) in {"private", "Tour Privado Exclusivo"}
  {
    var key := ToJsString(tourType);
    if key == "regular" then "Tour Astronómico Regular"
    else if key == "private" then "Tour Privado Exclusivo"
    else if key == "astrophoto" then "Tour Astrofotográfico Especializado"
    else key
  }

  /** The two label tables agree on a string tour type exactly when it is not
      `private` or `astrophoto`: those two are named differently here. */
  lemma LabelTablesDiffer(tourType: string)
    ensures LegacyLabel(Str(tourType)) == TourLabel(tourType) <==> tourType != "private" && tourType != "astrophoto"
  {
    assert ToJsString(Str(tourType)) == tourType;
  }

  /** Every event of this variant lasts two hours. */
  const LegacyDuration: int := 2 * 60

  function LegacyComment(message: JsValue): (r: string)
    ensures !Truthy(message) ==> r == "Sin comentarios"
  {
    if Truthy(message) then ToJsString(message) else "Sin comentarios"
  }

  /** `createCalendarEvent` as written: the stored time is split and parsed
      with no special case for `flexible`. `None` is the `RangeError` that
      `toISOString` throws on the resulting invalid date. */
  function LegacyCreateEvent(b: LegacyBooking): (r: Option<LegacyEvent>)
    ensures r.Some? <==> ClockMinutes(b.time).Some?
    ensures r.Some? ==>
      && r.value.tourLabel == LegacyLabel(b.tourType)
      && r.value.start == ClockMinutes(b.time).value
      && r.value.end == r.value.start + LegacyDuration
      && r.value.attendees == [LegacyAttendee(b.email, b.name)]
      && r.value.reminders == [Reminder(EmailReminder, 24 * 60), Reminder(PopupReminder, 60)]
      && r.value.colorId == "9"
      && r.value.location == Location
  {
    EventAt(b, ClockMinutes(b.time))
  }

  /** The event for a start time already read, shared by the variant as
      written and the corrected one. */
  function EventAt(b: LegacyBooking, start: Option<int>): (r: Option<LegacyEvent>)
    ensures r.Some? <==> start.Some?
  {
    match start
    case None => None
    case Some(s) =>
      Some(LegacyEvent(
        LegacyLabel(b.tourType),
        s,
        s + LegacyDuration,
        [LegacyAttendee(b.email, b.name)],
        [Reminder(EmailReminder, 24 * 60), Reminder(PopupReminder, 60)],
        Location,
        "9",
        ToJsString(b.name) + " (" + ToJsString(b.email) + ")",
        LegacyComment(b.message)))
  }

  /** The same event with the `flexible` sentinel read as 21:00, as the
      calendar module does. */
  function CorrectedCreateEvent(b: LegacyBooking): (r: Option<LegacyEvent>)
    ensures r.Some? <==> StartMinutes(b.time).Some?
    ensures b.time != "flexible" ==> r == LegacyCreateEvent(b)
  {
    EventAt(b, StartMinutes(b.time))
  }

  /** Whether each external call succeeds: the credential parse, the access
      token, and whether the API answers with an `ok` status. */
  datatype LegacyApi = LegacyApi(credentialsParse: bool, token: bool, responseOk: bool)

  datatype LegacyStage = CredentialsFailed | TokenFailed | EventFailed | ApiRejected

  /** The function never throws: it skips without credentials, returns the
      created event, or logs the failing stage and returns nothing. */
  datatype LegacyResult = Skipped | EventCreated(event: LegacyEvent) | Logged(stage: LegacyStage)

  function LegacyAddToCalendar(cfg: CalendarConfig, api: LegacyApi, b: LegacyBooking): (r: LegacyResult)
    ensures r == Skipped <==> !cfg.hasServiceAccountKey || !cfg.hasCalendarId
    ensures r.EventCreated? ==> Some(r.event) == LegacyCreateEvent(b)
  {
    CalendarCall(cfg, api, LegacyCreateEvent(b))
  }

  /** The error policy around an event that was or was not built. */
  function CalendarCall(cfg: CalendarConfig, api: LegacyApi, event: Option<LegacyEvent>): (r: LegacyResult)
    ensures r == Skipped <==> !cfg.hasServiceAccountKey || !cfg.hasCalendarId
    ensures r.EventCreated? ==> Some(r.event) == event
    ensures r.EventCreated? <==>
      (cfg.hasServiceAccountKey && cfg.hasCalendarId && api.credentialsParse && api.token
       && event.Some? && api.responseOk)
  {
    if !cfg.hasServiceAccountKey || !cfg.hasCalendarId then Skipped
    else if !api.credentialsParse then Logged(CredentialsFailed)
    else if !api.token then Logged(TokenFailed)
    else match event
      case None => Logged(EventFailed)
      case Some(e) => if api.responseOk then EventCreated(e) else Logged(ApiRejected)
  }

  function CorrectedAddToCalendar(cfg: CalendarConfig, api: LegacyApi, b: LegacyBooking): (r: LegacyResult)
    ensures r == Skipped <==> !cfg.hasServiceAccountKey || !cfg.hasCalendarId
    ensures r.EventCreated? ==> Some(r.event) == CorrectedCreateEvent(b)
  {
    CalendarCall(cfg, api, CorrectedCreateEvent(b))
  }

  /** The object the production handler passes: it carries neither the
      e-mail nor the message. */
  function HandlerBooking(n: Notice): LegacyBooking {
    LegacyBooking(n.bookingId, SlotText(n.time), n.tourType, n.persons, n.name, n.email, n.phone, Undefined)
  }

  /** What the handler evidently meant to pass: the validated e-mail and the
      message as well. */
  function CorrectedHandlerBooking(f: Fields, bookingId: string, time: Slot): LegacyBooking {
    LegacyBooking(bookingId, SlotText(time), Field(f, "tourType"), Field(f, "persons"),
      Field(f, "name"), Field(f, "email"), Field(f, "phone"), Field(f, "message"))
  }

  lemma FlexibleIsNotAClock()
    ensures ClockMinutes("flexible") == None
  {
    WordIsNotAClock("flexible");
  }

  /** A word without a colon that starts with a letter reads as no time. */
  lemma WordIsNotAClock(t: string)
    requires |t| > 0 && IsAsciiLetter(t[0])
    requires forall i :: 0 <= i < |t| ==> t[i] != ':'
    ensures ClockMinutes(t) == None
  {
    assert SplitClock(t).0 == t by {
      BeforeFirstOfFree(t, ':');
    }
    assert ParseInt(t) == None by {
      ParseIntOfWord(t);
    }
  }

  /** As written: a private booking that the handler has stored never reaches
      the calendar. Its time is `flexible`, which does not parse as a clock
      time, so even with working credentials and API the event fails to build
      and the failure is only logged. */
  lemma PrivateToursNeverOnCalendar(req: Request, w: World, cfg: CalendarConfig, api: LegacyApi)
    requires req.verb == "POST" && req.body.Some? && HasRequiredFields(req.body.value)
    requires TourOf(req.body.value) == Private
    ensures var n := NoticeFor(req.body.value, w.bookingId, RowFor(req.body.value, w).time, CalendarEntry);
      && LegacyCreateEvent(HandlerBooking(n)) == None
      && !LegacyAddToCalendar(cfg, api, HandlerBooking(n)).EventCreated?
      && (cfg.hasServiceAccountKey && cfg.hasCalendarId && api.credentialsParse && api.token
          ==> LegacyAddToCalendar(cfg, api, HandlerBooking(n)) == Logged(EventFailed))
  {
    var f := req.body.value;
    assert RowFor(f, w).time == Flexible;
    FlexibleIsNotAClock();
  }

  /** Corrected: every slot the handler stores yields an event that starts at
      the slot's time (21:00 for `flexible`) and lasts two hours, and with
      working credentials and API it is created. */
  lemma CorrectedCalendarTakesEverySlot(b: LegacyBooking, slot: Slot, cfg: CalendarConfig, api: LegacyApi)
    requires b.time == SlotText(slot)
    ensures CorrectedCreateEvent(b).Some?
    ensures CorrectedCreateEvent(b).value.start == ResolvedMinute(slot)
    ensures CorrectedCreateEvent(b).value.end == ResolvedMinute(slot) + LegacyDuration
    ensures cfg.hasServiceAccountKey && cfg.hasCalendarId && api.credentialsParse && api.token && api.responseOk
      ==> CorrectedAddToCalendar(cfg, api, b) == EventCreated(CorrectedCreateEvent(b).value)
  {
    StoredTimeReadsBack(slot);
  }

  /** As written, the variant and the fix agree on every clock-time slot:
      only `flexible` bookings are affected. */
  lemma ClockSlotsUnaffected(b: LegacyBooking, m: MinuteOfDay)
    requires b.time == SlotText(At(m))
    ensures LegacyCreateEvent(b) == CorrectedCreateEvent(b)
    ensures LegacyCreateEvent(b).Some? && LegacyCreateEvent(b).value.start == m
  {
    StoredTimeReadsBack(At(m));
    assert |b.time| == 5;
  }

  /** As written: the handler's calendar call never carries the customer's
      e-mail, so the single attendee has no address and the description reads
      `name (undefined)`; the message is never shown either. */
  lemma HandlerAttendeeHasNoEmail(f: Fields, bookingId: string, time: Slot)
    ensures var b := HandlerBooking(NoticeFor(f, bookingId, time, CalendarEntry));
      && b.email == Undefined
      && (LegacyCreateEvent(b).Some? ==>
          && LegacyCreateEvent(b).value.attendees[0].email == Undefined
          && LegacyCreateEvent(b).value.contact == ToJsString(Field(f, "name")) + " (" + ToJsString(Undefined) + ")"
          && LegacyCreateEvent(b).value.comment == "Sin comentarios")
  {
    var b := HandlerBooking(NoticeFor(f, bookingId, time, CalendarEntry));
    assert b.email == Undefined && b.name == Field(f, "name");
    var start := ClockMinutes(b.time);
    if start.Some? {
      assert EventAt(b, start).value.contact == ToJsString(b.name) + " (" + ToJsString(Undefined) + ")";
    }
  }

  /** Corrected: for a validated request the attendee is the customer's
      (truthy) e-mail, and a truthy message is shown in the description. */
  lemma CorrectedAttendeeIsCustomer(req: Request, w: World)
    requires req.verb == "POST" && req.body.Some? && HasRequiredFields(req.body.value)
    ensures var f := req.body.value;
      var b := CorrectedHandlerBooking(f, w.bookingId, RowFor(f, w).time);
      var e := CorrectedCreateEvent(b);
      && e.Some?
      && e.value.attendees == [LegacyAttendee(Field(f, "email"), Field(f, "name"))]
      && Truthy(e.value.attendees[0].email)
      && (Truthy(Field(f, "message")) ==> e.value.comment == ToJsString(Field(f, "message")))
  {
    var f := req.body.value;
    var slot := RowFor(f, w).time;
    StoredTimeReadsBack(slot);
  }
}
