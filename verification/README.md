# Astronomico booking site: a Dafny model of its rules

The site sells astronomy tours. Its logic consists of small rules inside network, DOM and file-system code. This project models those rules as pure Dafny functions over small datatypes and proves properties about them. It covers:

- **The booking endpoints.** `api/booking.js` and its diagnostic twin `api/test-booking.js`. They gate on the method, check six required fields and assign a start time from the tour type and the season. Then they build and insert the `bookings` row, and the production endpoint runs three failure-isolated notifications (`BookingRecord`, `Schedule`, `BookingHandler`, `TestBookingHandler`). The production endpoint's own calendar helper is `LegacyCalendar`.
- **Calendar event shaping.** From `api/google-calendar.js`: the time is read from `HH:MM` with `flexible` resolved to 21:00. It also covers the per-tour duration, colours, the attendee and reminders, the error policy (`GoogleCalendar`), and the bucketing of the moon's age into eight phases (`MoonPhase`).
- **Client rules of `script.js`.** The testimonial carousel and swipe decision (`Carousel`), the es/en switch (`Language`), the header scroll predicates and navigation highlight (`HeaderScroll`), and the form-field validators with the e-mail and phone patterns modelled by hand (`FormValidation`).
- **The e-mail list extractor** `extract_emails_large.py`. It covers the JSON walk, lower-cased counting, archive member selection, client filtering, the VIP/regular split and name estimation (`EmailExtraction`).
- **The two image scripts.** `create-responsive-images.js` (`ResponsiveImages`) and `optimize-images.js` (`OptimizeImages`) cover file selection, which variants are written under which names, and the `<picture>` markup helpers. `ImagePaths` holds what they share: `path.parse`, the extension test and template filling.

`Wrappers` (`Option`), `Text` (JavaScript whitespace, `trim`, substring search, ASCII case, decimal rendering, `parseInt`) and `JsValues` (a JSON field value and its truthiness) are shared helpers.

Everything outside the process is a parameter:
- the month of the booking;
- the generated booking identifier;
- the result of each database, notifier and calendar call;
- whether credentials are configured;
- the moon's age in hundredths of a day;
- the finder that stands for `re.findall`;
- the archive's members and their decoded chunks;
- the width of an image.

Times are minutes after midnight. Moon ages are integers, in hundredths of a day: for a real age `a`, `a < k/100` exactly when `floor(100a) < k`, so the integer buckets agree with the decimal thresholds for real ages (see the double-precision caveat under "## Left out").

Three behaviours of the code are worth stating up front, because a reader might expect otherwise:
- `api/google-calendar.js:43-48` only inserts events. Nothing in the code looks up, merges or deletes an event, so two bookings of one date and tour give two events.
- Only the production endpoint's own helper, `api/booking.js:278-320`, swallows every calendar failure (`LegacyCalendar.LegacyAddToCalendar`). The module in `api/google-calendar.js:53-59` rethrows once credentials are present (`GoogleCalendar.ConfiguredFailuresRethrown`).
- `api/booking.js` e-mails only the customer's confirmation. No administrator e-mail is sent.

## Model

| member | source | states |
|---|---|---|
| JsValues.FieldOfUpdate | api/booking.js:19-28 | destructuring a body field reads the value last sent under that key, is unaffected by other keys, and reads `undefined` for a key the client did not send |
| JsValues.ParseIntOfWord | api/booking.js:67 | `parseInt` of text starting with neither whitespace, a sign nor a digit is `NaN` |
| JsValues.ParseIntValueCases | api/booking.js:67 | `parseInt(persons)` keeps a number and the decimal string of a number, reads an array starting with a number as that number (`[5]` gives 5), and gives `NaN` for `undefined`, `null`, booleans, objects and the empty array |
| BookingRecord.MissingIffSomeRequiredFalsy | api/booking.js:31 | the required-field check fails exactly when one of date, persons, tourType, name, email, phone is falsy |
| BookingRecord.TimeAndMessageNotRequired | api/booking.js:30-31 | whatever `time` and `message` hold, the required-field test's outcome does not change |
| BookingRecord.RowOf | api/booking.js:61-77 | the inserted row carries the generated id, status `pending`, the assigned time and `parseInt(persons)` |
| BookingRecord.RowPersonsNumeric | api/booking.js:67 | a `persons` sent as a number or as its decimal string is stored as that integer |
| Schedule.SummerMonths | api/booking.js:40-41 | summer is exactly September to March, winter exactly April to August |
| Schedule.ClassifyTour | api/booking.js:43-53 | the `switch` compares strictly: only the exact strings `regular`, `private` and `astrophoto` select their case |
| Schedule.AssignTime | api/booking.js:39-53 | regular 21:30 in summer and 20:30 otherwise, astrophoto 21:00 and 20:00, private `flexible`, any other type 21:00 |
| Schedule.AssignTimeRange | api/booking.js:39-53 | only private tours are left without a clock time, and every clock time lies between 20:00 and 21:30 |
| Schedule.AssignTimeBySeason | api/booking.js:40-53 | two months of the same season give every tour type the same time |
| Schedule.AssignTimeOffsets | api/booking.js:43-52 | a regular tour starts 30 minutes after an astrophoto tour, and both start an hour later in summer than in winter |
| BookingHandler.IsolatedStepsAllRun | api/booking.js:88-140 | steps that each catch their own error are all attempted in order, whatever each call does, and nothing escapes |
| BookingHandler.EscapeIffUnguardedThrow | api/booking.js:88-151 | a run of steps escapes to the outer handler exactly when a step without its own try/catch throws, and it stops at that step |
| BookingHandler.Handle | api/booking.js:10-34 | a non-POST is answered 405 and a body missing a field is answered 400, in both cases with no external call; any call made starts with the insert of the row |
| BookingHandler.MissingFieldsTouchNothing | api/booking.js:30-34 | a falsy required field gives 400, with no insert and no notification |
| BookingHandler.InsertErrorStops | api/booking.js:81-84 | a database error gives 500 with its message, and no notifier is called after the insert |
| BookingHandler.NotificationsAllRun | api/booking.js:88-140 | WhatsApp, confirmation e-mail and calendar are each attempted once, in that order, with their notices, and none can escape |
| BookingHandler.HandleAfterInsert | api/booking.js:88-146 | after a successful insert the answer is the success reply with the generated id, and the trace is the insert followed by the notification run |
| BookingHandler.NotifiersCannotFailBooking | api/booking.js:88-146 | after a successful insert the answer is 200 with the inserted id, and the trace is exactly the insert and the three notifier calls, whatever each of them does |
| BookingHandler.SuccessIffInserted | api/booking.js:10-151 | the answer is 200 exactly for a valid POST whose insert succeeds; the notifiers play no part |
| BookingHandler.ClientTimeIgnored | api/booking.js:38-77 | a client-sent `time` does not change the row, which carries the assigned time, status `pending` and the generated id |
| TestBookingHandler.TestIdsApart | api/test-booking.js:40 | a diagnostic id never equals a production `ATK-` id, and two diagnostic ids are equal exactly when their clock-derived suffixes are |
| TestBookingHandler.TestRowFor | api/test-booking.js:78-94 | the stored message is truthy exactly when the sent one is, and is never `undefined` or `null` (`message \|\| ''`) |
| TestBookingHandler.HandleTest | api/test-booking.js:9-37 | a non-POST gives 405 and a missing field gives 400, in both cases with no database access |
| TestBookingHandler.TestSuccess | api/test-booking.js:59-117 | 200 exactly when the probe and the insert both succeed on a valid POST; the reply then carries the inserted `TEST-` id and the assigned time, and only the probe and the insert were called |
| TestBookingHandler.TestMissingFieldsBeforeDatabase | api/test-booking.js:33-37 | a falsy required field gives 400 before the database is touched |
| TestBookingHandler.TestInsertErrorCarriesCode | api/test-booking.js:98-105 | an insert error gives 500 carrying the database message and code |
| TestBookingHandler.TestRowMatchesProductionRow | api/test-booking.js:78-94 | the diagnostic row equals the production row except for the id and the `''` stored for a falsy message |
| GoogleCalendar.SplitOfJoin | api/google-calendar.js:79 | splitting `hh:mm` built from two colon-free fields gives those two fields back |
| GoogleCalendar.ResolveTime | api/google-calendar.js:72-76 | every stored time other than `flexible` is kept as it is |
| GoogleCalendar.ReadsBack | api/google-calendar.js:78-80 | an `HH:MM` text written for a minute of the day is read back by split and `parseInt` as that minute |
| GoogleCalendar.StoredTimeReadsBack | api/google-calendar.js:72-80 | every time a booking handler stores starts the event at that time, and `flexible` starts it at 21:00 |
| GoogleCalendar.EndMinutes | api/google-calendar.js:83-92 | adding whole hours and then the fractional hour puts the end exactly the tour's duration after the start |
| GoogleCalendar.EventColorsDistinct | api/google-calendar.js:162-170 | the three tour types get three different colours, and any other type gets the regular colour `9` |
| GoogleCalendar.CreateCalendarEvent | api/google-calendar.js:62-160 | an event exists exactly when the time reads. It has duration 150/180/300/150 minutes, status `tentative`, the fixed location, reminders 1440 (e-mail) and 120 (popup), and the colour by type. Without an e-mail there is no attendee and the description says `No especificado`; otherwise there is one attendee with `needsAction` |
| GoogleCalendar.HandlerTimesYieldEvents | api/google-calendar.js:69-92 | a booking with a handler-stored time always yields an event starting at that time (21:00 for `flexible`) and lasting its tour's duration |
| GoogleCalendar.AddToGoogleCalendar | api/google-calendar.js:4-60 | without both settings it returns quietly, and an inserted event is the one `createCalendarEvent` built |
| GoogleCalendar.ConfiguredFailuresRethrown | api/google-calendar.js:17-59 | with credentials, every outcome is an insert or a rethrow; an insert happens exactly when parsing, authorization and insertion succeed and the time reads |
| MoonPhase.ThresholdsIncreasing | api/google-calendar.js:185-221 | the eight phase thresholds (1.85 … 27.68 days) strictly increase |
| MoonPhase.CountLocates | api/google-calendar.js:185-221 | in increasing thresholds, those at or below an age form a prefix, so their count places the age between two consecutive thresholds |
| MoonPhase.PhaseOfAgeIsBucket | api/google-calendar.js:185-221 | the `if`/`else if` chain picks the phase of the bucket the age falls in, with the ninth bucket wrapping to a new moon, so each age maps to exactly one phase |
| MoonPhase.NewAndFullMoon | api/google-calendar.js:185-221 | ages 0 and anything from 27.68 days on are a new moon, and 14.77 days is a full moon |
| MoonPhase.PhaseMonotoneInCycle | api/google-calendar.js:185-216 | within one cycle a later age never falls in an earlier bucket |
| LegacyCalendar.LegacyComment | api/booking.js:364 | a falsy message is shown as `Sin comentarios` |
| LegacyCalendar.LegacyLabel | api/booking.js:337-356 | an unlisted tour type is shown as its own text, and `Tour Privado Exclusivo` is shown exactly for `private` (or that text itself) |
| LegacyCalendar.LabelTablesDiffer | api/booking.js:337-356 | this helper's labels agree with the calendar module's exactly for tour types other than `private` and `astrophoto` |
| LegacyCalendar.LegacyCreateEvent | api/booking.js:337-396 | an event exists exactly when the stored time reads as `HH:MM`, with no `flexible` case. It carries the helper's tour label, lasts two hours, has one attendee from the given e-mail and name, reminders 1440 (e-mail) and 60 (popup), colour `9` and the fixed location |
| LegacyCalendar.CorrectedCreateEvent | api/booking.js:344-347 | the same event with `flexible` read as 21:00; for every other time it agrees with the code as written |
| LegacyCalendar.LegacyAddToCalendar | api/booking.js:278-320 | without both settings the step is skipped, and a created event is the one built from the booking |
| LegacyCalendar.CalendarCall | api/booking.js:282-319 | every failure is logged rather than thrown; an event is created exactly when the settings, the credential parse, the token, the event and the response are all good |
| LegacyCalendar.CorrectedAddToCalendar | api/booking.js:278-320 | the same error policy around the corrected event |
| LegacyCalendar.FlexibleIsNotAClock | api/booking.js:346-347 | `flexible` does not parse as a clock time |
| LegacyCalendar.PrivateToursNeverOnCalendar | api/booking.js:346-347 | a private booking, stored as `flexible`, never gets an event; with working credentials the failure is only logged |
| LegacyCalendar.CorrectedCalendarTakesEverySlot | api/booking.js:344-351 | corrected: every stored slot gives a two-hour event at its time (21:00 for `flexible`), which is created when the API works |
| LegacyCalendar.ClockSlotsUnaffected | api/booking.js:344-347 | the code as written and the correction agree on every clock-time slot |
| LegacyCalendar.HandlerAttendeeHasNoEmail | api/booking.js:127-135 | the handler's calendar call carries no e-mail, so the attendee has no address, the contact line reads `name (undefined)` and the message is never shown |
| LegacyCalendar.CorrectedAttendeeIsCustomer | api/booking.js:380-385 | corrected: a validated booking's attendee is the customer's e-mail, and a truthy message is shown |
| Carousel.JsRemainder | script.js:171 | JavaScript's `%`: `NaN` exactly for a zero divisor, and the mathematical remainder for a non-negative dividend |
| Carousel.MovesStayInRange | script.js:170-172 | from a valid index both moves stay in `[0, n)`, and forward from the last card goes to 0 |
| Carousel.PrevUndoesNext | script.js:170-228 | going back undoes going forward and vice versa |
| Carousel.EmptyCarouselIsNaN | script.js:170-172 | with no cards the index becomes `NaN` and stays `NaN` |
| Carousel.AdvanceIsRotation | script.js:170-176 | `k` timer ticks move a valid index to `(i + k) mod n`, so the timer visits every card in turn |
| Carousel.ShowSlideAfterTicks | script.js:156-176 | after `k` timer ticks from a valid card, no dot lookup fails and exactly card `(i + k) mod n` and its dot are active |
| Carousel.ShowSlideAfterSwipe | script.js:156-231 | after a swipe from a valid card, exactly the neighbour in the swipe's direction and its dot are active, wrapping at both ends |
| Carousel.ClassifySwipe | script.js:216-222 | a swipe acts only beyond 50 pixels, forward for a leftward move and back for a rightward one |
| Carousel.SwipeMovesOne | script.js:216-231 | a swipe moves exactly one card in its direction, a short touch moves nothing, and the reverse swipe comes back |
| HeaderScroll.HiddenOnlyWhenScrollingDown | script.js:44-55 | a hidden header is always marked scrolled; scrolling up, standing still or staying above 200 pixels shows it |
| HeaderScroll.ReplayScroll | script.js:40-58 | over a run of scroll events, each event hides the header exactly when it moved further down than the one before and is past 200 pixels |
| HeaderScroll.LastCovering | script.js:65-75 | the index found is the last section containing the point, or none contains it |
| HeaderScroll.Highlight | script.js:62-76 | after the pass either at most one link is highlighted or the highlight is as it was, and when no section contains the point it is as it was |
| Language.Toggle | script.js:116 | a click always changes the language |
| Language.ToggleInvolution | script.js:116 | two toggles restore the language |
| Language.TextsAligned | script.js:84-111 | each language has one text per translated element, and the first seven Spanish texts are the keys the table is looked up by |
| Language.BadgeShowsCode | script.js:116-117 | the indicator is the stored code in capitals: lower-casing it gives the code back |
| Language.Click | script.js:115-140 | a click changes the language, saves its code, shows an indicator that lower-cases to the saved code, and shows one text per translated element |
| Language.ClickTwice | script.js:115-140 | two clicks restore the language, its badge, its texts and its saved code |
| Language.Load | script.js:142-146 | start-up clicks once exactly when a non-empty saved value other than `es` is found |
| Language.SavedPreferenceRoundTrip | script.js:139-146 | a saved code loads back as its language, any other non-empty value loads English, and no value or an empty one loads Spanish |
| Language.ClickThenReload | script.js:115-146 | after any start-up, a click saves the code of the language now shown, and reloading shows it again |
| FormValidation.IsEmailIffPattern | script.js:263 | the scanning check accepts exactly the strings `^[^\s@]+@[^\s@]+\.[^\s@]+$` matches |
| FormValidation.EmailScanMatches | script.js:263 | whatever the scan accepts has the pattern's three runs around an `@` and a `.` |
| FormValidation.EmailPatternScans | script.js:263 | whatever matches the pattern passes the scan |
| FormValidation.IsPhoneIffPattern | script.js:270 | the scanning check accepts exactly the strings `^[\+]?[\d\s\-\(\)]{8,}$` matches |
| FormValidation.ValidateFieldSpec | script.js:245-289 | an all-whitespace value is rejected as required; a field is valid exactly when its trimmed value is non-empty, matches its type's pattern, and for a date is not before today |
| EmailExtraction.EmptyIsConsistent | extract_emails_large.py:11-13 | the fresh extractor is consistent: seen set and count keys agree, counts are positive, addresses are lower case |
| EmailExtraction.AddOne | extract_emails_large.py:86-90 | a found address is stored lower-cased with its count up by one, every other count is unchanged, and consistency is kept |
| EmailExtraction.AddFoundCounts | extract_emails_large.py:86-90 | every count rises by the number of times its address was found, and the seen set gains exactly those addresses |
| EmailExtraction.ExtractFromJson | extract_emails_large.py:95-108 | walking a document keeps the extractor consistent |
| EmailExtraction.Scanned | extract_emails_large.py:97-105 | every string the walk scans contains an `@` |
| EmailExtraction.ExtractScansScanned | extract_emails_large.py:95-108 | walking a document is finding addresses in exactly its `@`-bearing object string values, in document order |
| EmailExtraction.ArrayStringsIgnored | extract_emails_large.py:99-108 | strings placed directly in a list are never scanned, and neither is an object value without an `@` |
| EmailExtraction.ScanChunks | extract_emails_large.py:73-93 | scanning text chunks keeps the extractor consistent |
| EmailExtraction.ScanChunksFindsAll | extract_emails_large.py:73-90 | scanning chunk by chunk adds everything found in every chunk, in order |
| EmailExtraction.ProcessFileContent | extract_emails_large.py:59-93 | a `.json` name is walked as JSON, and a parse failure changes nothing; any other name is scanned as text |
| EmailExtraction.RelevanceIgnoresCase | extract_emails_large.py:35 | member selection does not depend on the case of the name |
| EmailExtraction.UpperCaseJsonScannedAsText | extract_emails_large.py:50-63 | a member named `X.JSON` is selected but scanned as text, since the JSON test is case-sensitive |
| EmailExtraction.ProcessArchive | extract_emails_large.py:27-57 | processing an archive's members keeps the extractor consistent |
| EmailExtraction.IrrelevantMembersIgnored | extract_emails_large.py:44-57 | members whose names carry no marker contribute nothing |
| EmailExtraction.FilterClientEmails | extract_emails_large.py:110-138 | the result lists, once each, exactly the seen addresses containing no excluded pattern and no own domain; the count test admits all of them |
| EmailExtraction.Vip | extract_emails_large.py:176 | every VIP address was seen at least three times |
| EmailExtraction.Regular | extract_emails_large.py:177 | every regular address was seen fewer than three times |
| EmailExtraction.SegmentsPartition | extract_emails_large.py:176-177 | VIP and regular together hold each client address exactly as often as the client list does |
| EmailExtraction.EstimateName | extract_emails_large.py:156-158 | the name has one character per character of the local part: a space for each of `._-`, other non-letters kept, a letter upper case at the start of a word and lower case inside one |
| EmailExtraction.EstimateNameIdempotent | extract_emails_large.py:156-158 | guessing a name from a guessed name changes nothing |
| ImagePaths.ParsePath | create-responsive-images.js:59-60 | name and extension put back together give the base name; the extension is empty or a single dot-led part |
| ImagePaths.ParsePathOfParts | optimize-images.js:76-77 | a name followed by a one-dot extension parses back into them |
| ImagePaths.FillContains | create-responsive-images.js:144-153 | every value substituted into a template literal occurs in the result |
| ImagePaths.FillTrimmed | create-responsive-images.js:144-153 | `.trim()` on a template that opens with a line break before its first tag removes exactly that break |
| ResponsiveImages.SizesAreDoubled | create-responsive-images.js:12-38 | all 18 entries have a 2x width twice the 1x width |
| ResponsiveImages.SizesFor | create-responsive-images.js:64-68 | a base name has a size entry exactly when the table lists it, and then its 2x width is twice its 1x width |
| ResponsiveImages.ImageFiles | create-responsive-images.js:48-55 | kept exactly: names with a jpg/jpeg/png extension (any case) containing neither `backup` nor `hero` |
| ResponsiveImages.Variants | create-responsive-images.js:57-95 | no output without a size entry; otherwise exactly `-1x.webp`, `-2x.webp` and `-1x.jpg` at the configured widths |
| ResponsiveImages.Plan | create-responsive-images.js:114-124 | the outputs written are exactly the variants of the selected files |
| ResponsiveImages.UnconfiguredIsPlainImg | create-responsive-images.js:138-140 | an image without an entry gets an `<img>` of the original with the given loading and class |
| ResponsiveImages.PictureMarkup | create-responsive-images.js:144-153 | the trimmed `<picture>` starts at its tag, names all four of its files and carries the 1x width |
| ResponsiveImages.ConfiguredIsPicture | create-responsive-images.js:142-153 | a configured image gets that `<picture>` markup |
| ResponsiveImages.PictureRefersToMissingJpeg | create-responsive-images.js:144-153 | as written: the markup offers `-2x.jpg`, which no run writes for any file |
| ResponsiveImages.NoVariantIsDoubleJpeg | create-responsive-images.js:77-95 | no output of any file is a 2x JPEG |
| ResponsiveImages.CorrectedVariants | create-responsive-images.js:90-95 | corrected: the three outputs plus a 2x JPEG at the 2x width |
| ResponsiveImages.CorrectedPictureResolves | create-responsive-images.js:144-153 | corrected: every file the markup names is written |
| OptimizeImages.BreakpointsIncreasing | optimize-images.js:15-20 | four breakpoints, with widths 480 < 768 < 1200 < 1920 and tags starting with four different letters, none of them `o` |
| OptimizeImages.ImageFiles | optimize-images.js:30-33 | kept exactly: names with a jpg/jpeg/png extension, in any case |
| OptimizeImages.BreakpointVariants | optimize-images.js:87-105 | every resized output belongs to a breakpoint no wider than the original, and each such breakpoint yields both its JPEG and its WebP |
| OptimizeImages.OutputsOf | optimize-images.js:87-112 | the outputs are the breakpoint pairs plus the `-original` JPEG and WebP, always |
| OptimizeImages.VariantsUpToWidth | optimize-images.js:86-92 | a breakpoint's width is produced exactly when it is no wider than the original, and then in both formats |
| OptimizeImages.PictureIsTrimmed | optimize-images.js:134-149 | trimming removes only the leading line break, so the markup starts at `<picture class="` |
| OptimizeImages.PictureElementShape | optimize-images.js:131-149 | the markup carries the class, the alternative text and the loading mode |
| OptimizeImages.PictureReferencesAppear | optimize-images.js:134-149 | every file of the reference list appears in the markup |
| OptimizeImages.NoBreakpointOutputIsOriginal | optimize-images.js:91-109 | no resized output is written where an `-original` output would be |
| OptimizeImages.OriginalJpegNeverWritten | optimize-images.js:107-109 | for any extension but `.jpg`, no output is `-original.jpg` |
| OptimizeImages.FallbackMissingForOtherExtensions | optimize-images.js:148 | as written: for a non-`.jpg` source the markup's fallback `-original.jpg` is never written |
| OptimizeImages.PngSourceExample | optimize-images.js:76-77 | `sky.png` parses with extension `.png` |
| OptimizeImages.NoOutputForUnreachedBreakpoint | optimize-images.js:87-112 | no file named after a breakpoint wider than the original is written, whatever follows the tag |
| OptimizeImages.UnreachedBreakpointReferenced | optimize-images.js:89 | as written: the markup names the WebP (and, below the widest, the JPEG) of a breakpoint wider than the original, and that file is never written |
| OptimizeImages.AllReached | optimize-images.js:87-105 | once the original reaches every breakpoint, its width no longer changes the resized outputs |
| OptimizeImages.CorrectionKeepsJpegSources | optimize-images.js:87-112 | for a `.jpg` source the correction only adds files, and changes nothing for an original at least 1920 pixels wide |
| OptimizeImages.CorrectedPictureResolves | optimize-images.js:137-148 | corrected: every one of the eight files the markup names is written, whatever the original's width and extension |
| Text.TrimEmptyIffAllSpace | script.js:246 | `trim()` gives the empty string exactly for an all-whitespace value |
| Text.ParseIntOfIntToString | api/booking.js:67 | `parseInt(String(n))` is `n` for every integer `n` |
| Text.ToLowerIdempotent | extract_emails_large.py:88 | lower-casing twice is lower-casing once |

## Left out

- The network and its clients: Supabase, WhatsApp, Resend, Google auth and Google Calendar. Each call is an abstract result (completed, rejected or threw).
- Environment variables. Only "both calendar settings present" is kept.
- The wording of messages, e-mails, HTML and event descriptions, and `toLocaleDateString`. The event description is kept only in the parts a property is about: the contact e-mail line and the comment.
- `Date`, time zones and `toISOString`. The month and the `HH:MM` text are inputs, and times are minutes after the booking date's midnight. An invalid date (a `date` that does not parse) is not modelled.
- Booking-identifier generation from the clock and `Math.random`. The identifier, or its suffix, is an input.
- The floating-point moon-age computation in both calendar variants. The age is an input, and only the bucketing is modelled. The random illumination figure in `api/booking.js:398-411` is left out entirely.
- Object-literal lookups (`tourTypes[...]`, `duration[...]`, `colors[...]`, `IMAGE_SIZES[...]`) are modelled as own-key lookups only. In JavaScript, keys such as `constructor` also find inherited properties.
- JSON serialisation drops an `undefined` attendee e-mail. The model keeps the `undefined` value in the attendee record.
- JavaScript numbers are integers here. Fractional or exponent-form numbers sent as `persons` are not modelled.
- Text.ParseIntOfIntToString: JavaScript writes a number of magnitude 10^21 or more in exponent form (`1e+21`), which `parseInt` reads as 1. The model's numbers print in plain decimal at every size, so the round trip is stated for all integers.
- JsValues.ParseIntValueCases: an array is covered when it is empty or starts with a number; an array starting with a string or a nested array is rendered but not characterised by the contract.
- MoonPhase.PhaseOfAge: ages are exact hundredths. The doubles nearest 16.61, 23.99 and 27.68 lie just below those decimals, so an age equal to one of those doubles falls in the later bucket in the source and in the earlier one here.
- In `script.js`:
  - the DOM, listeners, timers, pause on hover and `localStorage` (the saved value is an input);
  - smooth scrolling, back-to-top, parallax, the typing effect;
  - the terms checkbox and `submitForm`;
  - `debounce`, `throttle` and the analytics logging.
- Carousel.ClassifySwipe: touch coordinates are integers. Fractional coordinates are not modelled.
- Carousel.ShowSlide: a card index that is a fraction is not modelled; `NaN` is treated as having no card.
- The regular-expression engine of the Python script and its archive and file I/O. The finder and the members' contents are inputs. An address split across two 1 MB chunks is not found (as in the source), and the model does not show that.
- EmailExtraction.EstimateName: models ASCII letters only. Python's `str.title` also cases non-ASCII letters and treats them as part of a word; here they act as word breaks, so `garcía` gives `GarcíA` where Python gives `García`.
- Letter case is ASCII-only throughout (`lower()`, `/i`).
- CSV and text file writing, and their sorted order. Only the membership and multiplicity of the segments are modelled.
- `path.parse` is modelled for names with `/` separators only; Windows paths are not covered.
- sharp and the file system. The reading of an image's width is an input. So are per-file error catching, an undefined `metadata.width`, and the resizing itself.
- `optimize-hero-images.js`, `optimize-in-place.js`, the test and debug endpoints, and the WhatsApp probe scripts are not part of this model.

## Findings

| source | as written | input that shows it | evidently intended | confidence | as-written member | corrected member |
|---|---|---|---|---|---|---|
| api/booking.js:346-347 | the production calendar helper splits the stored time on `:` with no `flexible` case, so `parseInt('flexible')` is `NaN` and `toISOString` throws | a valid POST with `tourType: 'private'` (stored time `flexible`) | read `flexible` as 21:00, as `api/google-calendar.js:74-76` does | not executed; high | LegacyCalendar.PrivateToursNeverOnCalendar | LegacyCalendar.CorrectedCalendarTakesEverySlot |
| api/booking.js:127-135 | the handler's calendar call passes no `email` and no `message`, but the event's attendee and description read both | any valid booking with a working calendar | pass the validated e-mail and the message | not executed; medium | LegacyCalendar.HandlerAttendeeHasNoEmail | LegacyCalendar.CorrectedAttendeeIsCustomer |
| create-responsive-images.js:148 | the `<picture>` offers `<base>-2x.jpg`, which the script never writes | `generateSrcSet('me2.jpg')` | also write a 2x JPEG | not executed; high | ResponsiveImages.PictureRefersToMissingJpeg | ResponsiveImages.CorrectedPictureResolves |
| optimize-images.js:148 | the fallback `<img>` is `<base>-original.jpg`, while the JPEG outputs keep the source's extension | `sky.png` of any width: the script writes `sky-original.png` | name JPEG outputs `.jpg` | not executed; high | OptimizeImages.FallbackMissingForOtherExtensions | OptimizeImages.CorrectedPictureResolves |
| optimize-images.js:89 | breakpoints wider than the original are skipped, but the markup at lines 137-145 names the files of every breakpoint | `sky.jpg` 1000 pixels wide: no `sky-desktop.*` or `sky-large.webp` is written, yet the markup names them | write every breakpoint's pair; the resize never enlarges, so a narrow original is written at its own width | not executed; medium | OptimizeImages.UnreachedBreakpointReferenced | OptimizeImages.CorrectedPictureResolves |
