/** The production booking endpoint: a method gate, the required-field check,
    time assignment, one insert, and then three notifications (WhatsApp
    message, confirmation e-mail, calendar entry), each inside its own
    try/catch, all inside an outer try/catch that answers 500.

    The database, the three notifiers, the clock and the identifier generator
    are parameters: the model receives the month, the generated identifier and
    the result of each external call, and returns the response together with
    the trace of external calls made. */
module BookingHandler {
  import opened Wrappers
  import opened JsValues
  import opened Schedule
  import opened BookingRecord

  /** What the insert call can do: succeed, return an error object (whose
      `message` is reported), or throw. */
  datatype InsertResult = Inserted | Rejected(message: string) | InsertThrew

  /** What a notifier call can do. */
  datatype Effect = Completed | Threw

  datatype Channel = WhatsApp | ConfirmationEmail | CalendarEntry

  /** The object handed to a notifier; a field the call site does not pass is
      `Undefined`. */
  datatype Notice = Notice(
    bookingId: string,
    date: JsValue,
    persons: JsValue,
    tourType: JsValue,
    time: Slot,
    name: JsValue,
    email: JsValue,
    phone: JsValue)

  /** One external call, in the order made. */
  datatype Action = Insert(row: BookingRow) | Notify(channel: Channel, notice: Notice, result: Effect)

  /** The response: status code and the meaning of its JSON body. */
  datatype Reply =
    | MethodNotAllowed
    | MissingFields
    | DatabaseError(details: string)
    | InternalError
    | Created(bookingId: string)

  function StatusCode(r: Reply): int {
    match r
    case MethodNotAllowed => 405
    case MissingFields => 400
    case DatabaseError(_) => 500
    case InternalError => 500
    case Created(_) => 200
  }

  /** Everything the handler reads from outside the request. */
  datatype World = World(
    month: Month,
    bookingId: string,
    insert: InsertResult,
    whatsapp: Effect,
    email: Effect,
    calendar: Effect)

  function EffectOf(w: World, c: Channel): Effect {
    match c
    case WhatsApp => w.whatsapp
    case ConfirmationEmail => w.email
    case CalendarEntry => w.calendar
  }

  datatype Outcome = Outcome(reply: Reply, trace: seq<Action>)

  /** A step after the insert: its own try/catch (`Isolated`) or none, in which
      case a throw reaches the handler's outer try/catch. */
  datatype Guard = Isolated | Unguarded

  datatype Step = Step(channel: Channel, guard: Guard)

  /** The calls made by a run of steps, and whether a throw escaped. */
  datatype Run = Run(calls: seq<Action>, escaped: bool)

  /** Executes steps in order. A throw inside an isolated step is caught and
      execution continues; a throw in an unguarded step ends the run. */
  function RunSteps(steps: seq<Step>, f: Fields, w: World, time: Slot): (r: Run)
    ensures |r.calls| <= |steps|
  {
    if |steps| == 0 then Run([], false)
    else
      var c := steps[0].channel;
      var call := Notify(c, NoticeFor(f, w.bookingId, time, c), EffectOf(w, c));
      if steps[0].guard == Unguarded && EffectOf(w, c) == Threw then Run([call], true)
      else
        var rest := RunSteps(steps[1..], f, w, time);
        Run([call] + rest.calls, rest.escaped)
  }

  /** When every step is isolated, every step is attempted, in order, and
      nothing escapes, whatever each call does. */
  lemma {:induction false} IsolatedStepsAllRun(steps: seq<Step>, f: Fields, w: World, time: Slot)
    requires forall i :: 0 <= i < |steps| ==> steps[i].guard == Isolated
    ensures !RunSteps(steps, f, w, time).escaped
    ensures |RunSteps(steps, f, w, time).calls| == |steps|
    ensures forall i :: 0 <= i < |steps| ==>
      RunSteps(steps, f, w, time).calls[i]
        == Notify(steps[i].channel, NoticeFor(f, w.bookingId, time, steps[i].channel), EffectOf(w, steps[i].channel))
  {
    if |steps| > 0 {
      IsolatedStepsAllRun(steps[1..], f, w, time);
    }
  }

  /** A run escapes exactly when some unguarded step throws, and then it stops
      right after that step. */
  lemma {:induction false} EscapeIffUnguardedThrow(steps: seq<Step>, f: Fields, w: World, time: Slot)
    ensures RunSteps(steps, f, w, time).escaped
      <==> exists i :: 0 <= i < |steps| && steps[i].guard == Unguarded && EffectOf(w, steps[i].channel) == Threw
    ensures RunSteps(steps, f, w, time).escaped ==>
      var k := |RunSteps(steps, f, w, time).calls| - 1;
      k >= 0 && steps[k].guard == Unguarded && EffectOf(w, steps[k].channel) == Threw
  {
    if |steps| > 0 {
      EscapeIffUnguardedThrow(steps[1..], f, w, time);
      if exists i :: 0 <= i < |steps| && steps[i].guard == Unguarded && EffectOf(w, steps[i].channel) == Threw {
        var i :| 0 <= i < |steps| && steps[i].guard == Unguarded && EffectOf(w, steps[i].channel) == Threw;
        if i > 0 {
          assert steps[1..][i - 1] == steps[i];
        }
      }
    }
  }

  /** The three notifications, in source order, each in its own try/catch. */
  const NotificationSteps: seq<Step> :=
    [Step(WhatsApp, Isolated), Step(ConfirmationEmail, Isolated), Step(CalendarEntry, Isolated)]

  /** The object each notifier receives: the WhatsApp message and the calendar
      entry get no e-mail, the confirmation e-mail gets no phone. */
  function NoticeFor(f: Fields, bookingId: string, time: Slot, c: Channel): Notice {
    Notice(
      bookingId,
      Field(f, "date"),
      Field(f, "persons"),
      Field(f, "tourType"),
      time,
      Field(f, "name"),
      if c == ConfirmationEmail then Field(f, "email") else Undefined,
      if c == ConfirmationEmail then Undefined else Field(f, "phone"))
  }

  /** The `bookings` row the production handler inserts. */
  function RowFor(f: Fields, w: World): BookingRow {
    RowOf(f, w.bookingId, w.month, Field(f, "message"))
  }

  /** The production handler. */
  function Handle(req: Request, w: World): (o: Outcome)
    ensures req.verb != "POST" ==> o == Outcome(MethodNotAllowed, [])
    ensures req.verb == "POST" && req.body.Some? && !HasRequiredFields(req.body.value)
      ==> o == Outcome(MissingFields, [])
    ensures o.trace != [] ==> req.body.Some? && o.trace[0] == Insert(RowFor(req.body.value, w))
  {
    if req.verb != "POST" then Outcome(MethodNotAllowed, [])
    else match req.body
      case None => Outcome(InternalError, [])
      case Some(f) =>
        if !HasRequiredFields(f) then Outcome(MissingFields, [])
        else
          var row := RowFor(f, w);
          match w.insert
          case InsertThrew => Outcome(InternalError, [Insert(row)])
          case Rejected(message) => Outcome(DatabaseError(message), [Insert(row)])
          case Inserted =>
            var run := RunSteps(NotificationSteps, f, w, row.time);
            if run.escaped then Outcome(InternalError, [Insert(row)] + run.calls)
            else Outcome(Created(w.bookingId), [Insert(row)] + run.calls)
  }

  /** A request with a missing field is answered 400 and causes no insert and
      no notification. */
  lemma MissingFieldsTouchNothing(req: Request, w: World)
    requires req.verb == "POST" && req.body.Some?
    requires exists i :: 0 <= i < |RequiredFields| && !Truthy(Field(req.body.value, RequiredFields[i]))
    ensures StatusCode(Handle(req, w).reply) == 400 && Handle(req, w).trace == []
  {
    MissingIffSomeRequiredFalsy(req.body.value);
  }

  /** A failed insert is answered 500 with the database message and no notifier
      is called. */
  lemma InsertErrorStops(req: Request, w: World, message: string)
    requires req.verb == "POST" && req.body.Some? && HasRequiredFields(req.body.value)
    requires w.insert == Rejected(message)
    ensures Handle(req, w).reply == DatabaseError(message)
    ensures StatusCode(Handle(req, w).reply) == 500
    ensures Handle(req, w).trace == [Insert(RowFor(req.body.value, w))]
  {
  }

  /** The three notifications are all attempted, in order, and none can
      escape. */
  lemma NotificationsAllRun(f: Fields, w: World, time: Slot)
    ensures var run := RunSteps(NotificationSteps, f, w, time);
      && !run.escaped && |run.calls| == 3
      && run.calls[0] == Notify(WhatsApp, NoticeFor(f, w.bookingId, time, WhatsApp), w.whatsapp)
      && run.calls[1] == Notify(ConfirmationEmail, NoticeFor(f, w.bookingId, time, ConfirmationEmail), w.email)
      && run.calls[2] == Notify(CalendarEntry, NoticeFor(f, w.bookingId, time, CalendarEntry), w.calendar)
  {
    IsolatedStepsAllRun(NotificationSteps, f, w, time);
  }

  /** After a successful insert the handler answers with the identifier,
      having made the insert and then the notification run. */
  lemma HandleAfterInsert(req: Request, w: World)
    requires req.verb == "POST" && req.body.Some? && HasRequiredFields(req.body.value)
    requires w.insert == Inserted
    ensures var f := req.body.value; var row := RowFor(f, w);
      Handle(req, w) == Outcome(Created(w.bookingId), [Insert(row)] + RunSteps(NotificationSteps, f, w, row.time).calls)
  {
    var f := req.body.value;
    NotificationsAllRun(f, w, RowFor(f, w).time);
  }

  /** After a successful insert the answer is 200 with the inserted
      identifier, and the three notifiers are called in order, each with its
      notice, whatever each of them does. */
  lemma NotifiersCannotFailBooking(req: Request, w: World)
    requires req.verb == "POST" && req.body.Some? && HasRequiredFields(req.body.value)
    requires w.insert == Inserted
    ensures var f := req.body.value; var row := RowFor(f, w); var o := Handle(req, w);
      && o.reply == Created(row.bookingId)
      && StatusCode(o.reply) == 200
      && o.trace == [
        Insert(row),
        Notify(WhatsApp, NoticeFor(f, w.bookingId, row.time, WhatsApp), w.whatsapp),
        Notify(ConfirmationEmail, NoticeFor(f, w.bookingId, row.time, ConfirmationEmail), w.email),
        Notify(CalendarEntry, NoticeFor(f, w.bookingId, row.time, CalendarEntry), w.calendar)]
  {
    var f := req.body.value;
    var row := RowFor(f, w);
    var calls := RunSteps(NotificationSteps, f, w, row.time).calls;
    assert calls == [
        Notify(WhatsApp, NoticeFor(f, w.bookingId, row.time, WhatsApp), w.whatsapp),
        Notify(ConfirmationEmail, NoticeFor(f, w.bookingId, row.time, ConfirmationEmail), w.email),
        Notify(CalendarEntry, NoticeFor(f, w.bookingId, row.time, CalendarEntry), w.calendar)] by {
      NotificationsAllRun(f, w, row.time);
    }
    assert row.bookingId == w.bookingId by {
      RowCarriesId(f, w);
    }
    assert Handle(req, w) == Outcome(Created(w.bookingId), [Insert(row)] + calls) by {
      HandleAfterInsert(req, w);
    }
  }

  lemma RowCarriesId(f: Fields, w: World)
    ensures RowFor(f, w).bookingId == w.bookingId
  {
  }

  /** The answer is 200 exactly when the request is a POST with a body that
      passes the required-field test and the insert succeeds; the notifiers play no part. */
  lemma SuccessIffInserted(req: Request, w: World)
    ensures StatusCode(Handle(req, w).reply) == 200
      <==> req.verb == "POST" && req.body.Some? && HasRequiredFields(req.body.value) && w.insert == Inserted
  {
    if req.verb == "POST" && req.body.Some? && HasRequiredFields(req.body.value) && w.insert == Inserted {
      NotifiersCannotFailBooking(req, w);
    }
  }

  /** The row ignores any `time` the client sends: it carries the assigned
      slot, status `pending` and the generated identifier. */
  lemma ClientTimeIgnored(f: Fields, w: World, clientTime: JsValue)
    ensures RowFor(f["time" := clientTime], w) == RowFor(f, w)
    ensures RowFor(f, w).time == AssignTime(TourOf(f), w.month)
    ensures RowFor(f, w).status == Pending && RowFor(f, w).bookingId == w.bookingId
  {
    var g := f["time" := clientTime];
    assert Field(g, "date") == Field(f, "date");
    assert Field(g, "persons") == Field(f, "persons");
    assert Field(g, "tourType") == Field(f, "tourType");
    assert Field(g, "name") == Field(f, "name");
    assert Field(g, "email") == Field(f, "email");
    assert Field(g, "phone") == Field(f, "phone");
    assert Field(g, "message") == Field(f, "message");
  }
}
