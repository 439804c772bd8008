/** What the two booking endpoints share: the request they receive, the
    required-field check they both perform, and the row they insert into the
    `bookings` table. */
module BookingRecord {
  import opened Wrappers
  import opened JsValues
  import opened Schedule
  import opened Text

  /** An HTTP request as the handlers see it: `verb` is `req.method`; `body` is `None` when the
      platform supplied no parsed body (`req.body` is `undefined` or `null`). */
  datatype Request = Request(verb: string, body: Option<Fields>)

  /** The fields whose falsiness rejects a booking. */
  const RequiredFields: seq<string> := ["date", "persons", "tourType", "name", "email", "phone"]

  /** `!date || !persons || !tourType || !name || !email || !phone` is false. */
  predicate HasRequiredFields(f: Fields) {
    Truthy(Field(f, "date")) && Truthy(Field(f, "persons")) && Truthy(Field(f, "tourType"))
    && Truthy(Field(f, "name")) && Truthy(Field(f, "email")) && Truthy(Field(f, "phone"))
  }

  /** The required-field test fails exactly when one of the six listed fields is falsy. */
  lemma MissingIffSomeRequiredFalsy(f: Fields)
    ensures !HasRequiredFields(f) <==> exists i :: 0 <= i < |RequiredFields| && !Truthy(Field(f, RequiredFields[i]))
  {
    if !HasRequiredFields(f) {
      var i := if !Truthy(Field(f, "date")) then 0
        else if !Truthy(Field(f, "persons")) then 1
        else if !Truthy(Field(f, "tourType")) then 2
        else if !Truthy(Field(f, "name")) then 3
        else if !Truthy(Field(f, "email")) then 4
        else 5;
      assert !Truthy(Field(f, RequiredFields[i]));
    }
  }

  /** Neither `time` nor `message` takes part in the required-field test. */
  lemma TimeAndMessageNotRequired(f: Fields, time: JsValue, message: JsValue)
    ensures HasRequiredFields(f["time" := time]["message" := message]) == HasRequiredFields(f)
  {
    var g := f["time" := time]["message" := message];
    forall k | k in RequiredFields ensures Field(g, k) == Field(f, k) {
    }
  }

  datatype Status = Pending

  /** A row of the `bookings` table. `persons` is `None` where `parseInt`
      gave `NaN`; the other client fields are stored as received. */
  datatype BookingRow = BookingRow(
    bookingId: string,
    date: JsValue,
    persons: Option<int>,
    tourType: JsValue,
    time: Slot,
    name: JsValue,
    email: JsValue,
    phone: JsValue,
    message: JsValue,
    status: Status)

  /** The tour type of a request body, as the time rule sees it. */
  function TourOf(f: Fields): TourType {
    ClassifyTour(Field(f, "tourType"))
  }

  /** The row both handlers build from a validated body, with the message
      column still as received. */
  function RowOf(f: Fields, bookingId: string, month: Month, message: JsValue): (row: BookingRow)
    ensures row.bookingId == bookingId && row.status == Pending
    ensures row.time == AssignTime(TourOf(f), month)
    ensures row.persons == ParseIntValue(Field(f, "persons"))
    ensures row.message == message
  {
    BookingRow(
      bookingId,
      Field(f, "date"),
      ParseIntValue(Field(f, "persons")),
      Field(f, "tourType"),
      AssignTime(TourOf(f), month),
      Field(f, "name"),
      Field(f, "email"),
      Field(f, "phone"),
      message,
      Pending)
  }

  /** A `persons` value sent as a number, or as the decimal string of one, is
      stored as that integer. */
  lemma RowPersonsNumeric(f: Fields, bookingId: string, month: Month, message: JsValue, n: int)
    requires Field(f, "persons") == Number(n) || Field(f, "persons") == Str(IntToString(n))
    ensures RowOf(f, bookingId, month, message).persons == Some(n)
  {
    ParseIntValueCases(Field(f, "persons"));
  }
}
