/** The diagnostic booking endpoint: the same method gate, required-field
    check and time rule as the production endpoint, a connection probe (a
    one-row select), one insert, and no notifications. Its identifier is
    `TEST-` followed by a clock-derived suffix, which the model receives. */
module TestBookingHandler {
  import opened Wrappers
  import opened Text
  import opened JsValues
  import opened Schedule
  import opened BookingRecord

  /** The one-row select: it completes or throws with a message. */
  datatype ProbeResult = ProbeCompleted | ProbeThrew(message: string)

  /** The insert: it succeeds, returns an error object with a message and a
      code, or throws. */
  datatype TestInsertResult = TestInserted | TestRejected(message: string, code: string) | TestInsertThrew

  datatype TestAction = Probe | TestInsert(row: BookingRow)

  datatype TestReply =
    | TestMethodNotAllowed
    | TestMissingFields
    | ConnectionFailed(details: string)
    | TestDatabaseError(details: string, code: string)
    | TestInternalError
    | TestCreated(bookingId: string, assignedTime: string)

  function TestStatusCode(r: TestReply): int {
    match r
    case TestMethodNotAllowed => 405
    case TestMissingFields => 400
    case ConnectionFailed(_) => 500
    case TestDatabaseError(_, _) => 500
    case TestInternalError => 500
    case TestCreated(_, _) => 200
  }

  datatype TestWorld = TestWorld(month: Month, idSuffix: string, probe: ProbeResult, insert: TestInsertResult)

  datatype TestOutcome = TestOutcome(reply: TestReply, trace: seq<TestAction>)

  /** The identifier this endpoint generates. */
  function TestBookingId(w: TestWorld): (id: string)
    ensures StartsWith(id, "TEST-") && id[5..] == w.idSuffix
  {
    "TEST-" + w.idSuffix
  }

  /** Diagnostic identifiers never collide with production ones, which start
      with `ATK-`, and two runs share an identifier exactly when their
      clock-derived suffixes agree. */
  lemma TestIdsApart(w1: TestWorld, w2: TestWorld, production: string)
    requires StartsWith(production, "ATK-")
    ensures TestBookingId(w1) != production
    ensures TestBookingId(w1) == TestBookingId(w2) <==> w1.idSuffix == w2.idSuffix
  {
    assert TestBookingId(w1)[0] == 'T' && production[0] == 'A';
    if TestBookingId(w1) == TestBookingId(w2) {
      assert w1.idSuffix == TestBookingId(w1)[5..];
    }
  }

  /** The row this endpoint inserts: a falsy message is stored as `''`. */
  function TestRowFor(f: Fields, w: TestWorld): (row: BookingRow)
    ensures Truthy(row.message) <==> Truthy(Field(f, "message"))
    ensures row.message != Undefined && row.message != Null
  {
    var message := Field(f, "message");
    RowOf(f, TestBookingId(w), w.month, if Truthy(message) then message else Str(""))
  }

  /** The diagnostic handler. */
  function HandleTest(req: Request, w: TestWorld): (o: TestOutcome)
    ensures req.verb != "POST" ==> o == TestOutcome(TestMethodNotAllowed, [])
    ensures req.verb == "POST" && req.body.Some? && !HasRequiredFields(req.body.value)
      ==> o == TestOutcome(TestMissingFields, [])
  {
    if req.verb != "POST" then TestOutcome(TestMethodNotAllowed, [])
    else match req.body
      case None => TestOutcome(TestInternalError, [])
      case Some(f) =>
        if !HasRequiredFields(f) then TestOutcome(TestMissingFields, [])
        else match w.probe
          case ProbeThrew(message) => TestOutcome(ConnectionFailed(message), [Probe])
          case ProbeCompleted =>
            var row := TestRowFor(f, w);
            match w.insert
            case TestInsertThrew => TestOutcome(TestInternalError, [Probe, TestInsert(row)])
            case TestRejected(message, code) => TestOutcome(TestDatabaseError(message, code), [Probe, TestInsert(row)])
            case TestInserted => TestOutcome(TestCreated(row.bookingId, SlotText(row.time)), [Probe, TestInsert(row)])
  }

  /** The answer is 200 exactly when the probe and the insert both succeed on
      a valid POST; it then carries the inserted identifier and the assigned
      time, and nothing beyond the probe and the insert was called. */
  lemma TestSuccess(req: Request, w: TestWorld)
    ensures TestStatusCode(HandleTest(req, w).reply) == 200 <==>
      req.verb == "POST" && req.body.Some? && HasRequiredFields(req.body.value)
      && w.probe == ProbeCompleted && w.insert == TestInserted
    ensures var o := HandleTest(req, w);
      o.reply.TestCreated? ==>
        && req.body.Some?
        && var row := TestRowFor(req.body.value, w);
        && o.trace == [Probe, TestInsert(row)]
        && o.reply == TestCreated(row.bookingId, SlotText(row.time))
        && row.bookingId == TestBookingId(w)
  {
    if req.verb == "POST" && req.body.Some? && HasRequiredFields(req.body.value)
      && w.probe == ProbeCompleted && w.insert == TestInserted {
      TestCreatedShape(req, w);
    } else {
      TestNotCreated(req, w);
    }
  }

  /** The reply and trace of a valid POST whose probe and insert succeed. */
  lemma TestCreatedShape(req: Request, w: TestWorld)
    requires req.verb == "POST" && req.body.Some? && HasRequiredFields(req.body.value)
    requires w.probe == ProbeCompleted && w.insert == TestInserted
    ensures var row := TestRowFor(req.body.value, w);
      && HandleTest(req, w) == TestOutcome(TestCreated(row.bookingId, SlotText(row.time)), [Probe, TestInsert(row)])
      && row.bookingId == TestBookingId(w)
  {
  }

  /** Any other request or world gets an answer other than 200. */
  lemma TestNotCreated(req: Request, w: TestWorld)
    requires !(req.verb == "POST" && req.body.Some? && HasRequiredFields(req.body.value)
      && w.probe == ProbeCompleted && w.insert == TestInserted)
    ensures !HandleTest(req, w).reply.TestCreated? && TestStatusCode(HandleTest(req, w).reply) != 200
  {
  }

  /** A missing field is answered 400 before the database is touched. */
  lemma TestMissingFieldsBeforeDatabase(req: Request, w: TestWorld)
    requires req.verb == "POST" && req.body.Some?
    requires exists i :: 0 <= i < |RequiredFields| && !Truthy(Field(req.body.value, RequiredFields[i]))
    ensures TestStatusCode(HandleTest(req, w).reply) == 400 && HandleTest(req, w).trace == []
  {
    MissingIffSomeRequiredFalsy(req.body.value);
  }

  /** A rejected insert is answered 500 carrying the database message and code. */
  lemma TestInsertErrorCarriesCode(req: Request, w: TestWorld, message: string, code: string)
    requires req.verb == "POST" && req.body.Some? && HasRequiredFields(req.body.value)
    requires w.probe == ProbeCompleted && w.insert == TestRejected(message, code)
    ensures HandleTest(req, w).reply == TestDatabaseError(message, code)
    ensures TestStatusCode(HandleTest(req, w).reply) == 500
  {
  }

  /** The diagnostic row differs from the production row only in its
      identifier and in storing `''` for a falsy message: the time, the
      parsed persons and every other column agree. */
  lemma TestRowMatchesProductionRow(f: Fields, w: TestWorld, productionId: string)
    ensures var t := TestRowFor(f, w);
      var p := RowOf(f, productionId, w.month, Field(f, "message"));
      && t == p.(bookingId := "TEST-" + w.idSuffix, message := t.message)
      && (Truthy(Field(f, "message")) ==> t.message == p.message)
      && (!Truthy(Field(f, "message")) ==> t.message == Str(""))
  {
  }
}
