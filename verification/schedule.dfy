/** The season rule and the start time a booking is given from its tour type
    and the month in which it is made. The two booking handlers share this
    rule character for character. */
module Schedule {
  import opened Text
  import opened JsValues

  /** A calendar month, January = 1 (`new Date().getMonth() + 1`). */
  type Month = m: int | 1 <= m <= 12 witness 1

  /** A wall-clock time of day in minutes after midnight. */
  type MinuteOfDay = m: int | 0 <= m < 24 * 60

  datatype Season = Summer | Winter

  /** The southern-hemisphere season: months before April or after August are
      summer. */
  function SeasonOf(month: Month): Season {
    if month < 4 || month > 8 then Summer else Winter
  }

  /** Summer runs from September to March, winter from April to August. */
  lemma SummerMonths(month: Month)
    ensures SeasonOf(month) == Summer <==> month in {9, 10, 11, 12, 1, 2, 3}
    ensures SeasonOf(month) == Winter <==> month in {4, 5, 6, 7, 8}
  {
  }

  /** The tour types the handlers switch on, plus every other value. */
  datatype TourType = Regular | Private | Astrophoto | Unlisted

  /** `switch (tourType)` compares with `===`, so only the exact strings
      select a case; any other value, a number included, is unlisted. */
  function ClassifyTour(v: JsValue): (t: TourType)
    ensures t == Regular <==> v == Str("regular")
    ensures t == Private <==> v == Str("private")
    ensures t == Astrophoto <==> v == Str("astrophoto")
  {
    if v == Str("regular") then Regular
    else if v == Str("private") then Private
    else if v == Str("astrophoto") then Astrophoto
    else Unlisted
  }

  /** The same classification for a tour type already known to be a string,
      as the calendar code receives it. */
  function ClassifyTourName(name: string): TourType {
    ClassifyTour(Str(name))
  }

  /** An assigned start: a time of day, or the sentinel `flexible`. */
  datatype Slot = At(minute: MinuteOfDay) | Flexible

  const DefaultStart: MinuteOfDay := 21 * 60

  /** Two decimal digits, zero-padded. */
  function Pad2(n: nat): (r: string)
    requires n < 100
    ensures |r| == 2 && IsAsciiDigit(r[0]) && IsAsciiDigit(r[1])
  {
    [DigitChar(n / 10), DigitChar(n % 10)]
  }

  /** The string the handlers store in `time`: `HH:MM` or `flexible`. */
  function SlotText(slot: Slot): string {
    match slot
    case At(m) => Pad2(m / 60) + ":" + Pad2(m % 60)
    case Flexible => "flexible"
  }

  /** The handlers' start-time rule: regular tours start at 21:30 in summer and
      20:30 in winter, astrophotography tours at 21:00 and 20:00, private tours
      are `flexible`, and every other tour type gets the default 21:00. */
  function AssignTime(tour: TourType, month: Month): (slot: Slot)
    ensures tour == Regular ==> SlotText(slot) == (if SeasonOf(month) == Summer then "21:30" else "20:30")
    ensures tour == Astrophoto ==> SlotText(slot) == (if SeasonOf(month) == Summer then "21:00" else "20:00")
    ensures tour == Private ==> SlotText(slot) == "flexible"
    ensures tour == Unlisted ==> SlotText(slot) == "21:00"
  {
    var summer := SeasonOf(month) == Summer;
    match tour
    case Regular => At(if summer then 21 * 60 + 30 else 20 * 60 + 30)
    case Private => Flexible
    case Astrophoto => At(if summer then 21 * 60 else 20 * 60)
    case Unlisted => At(DefaultStart)
  }

  /** Only private tours are left without a concrete time; every concrete time
      lies between 20:00 and 21:30. */
  lemma AssignTimeRange(tour: TourType, month: Month)
    ensures AssignTime(tour, month).Flexible? <==> tour == Private
    ensures AssignTime(tour, month).At? ==> 20 * 60 <= AssignTime(tour, month).minute <= 21 * 60 + 30
  {
  }

  /** The assigned time depends on the month only through the season. */
  lemma AssignTimeBySeason(tour: TourType, m1: Month, m2: Month)
    requires SeasonOf(m1) == SeasonOf(m2)
    ensures AssignTime(tour, m1) == AssignTime(tour, m2)
  {
  }

  /** A regular tour starts half an hour after an astrophotography tour in the
      same month, and both start an hour later in summer than in winter. */
  lemma AssignTimeOffsets(month: Month, summerMonth: Month, winterMonth: Month)
    requires SeasonOf(summerMonth) == Summer && SeasonOf(winterMonth) == Winter
    ensures AssignTime(Regular, month).minute == AssignTime(Astrophoto, month).minute + 30
    ensures AssignTime(Regular, summerMonth).minute == AssignTime(Regular, winterMonth).minute + 60
    ensures AssignTime(Astrophoto, summerMonth).minute == AssignTime(Astrophoto, winterMonth).minute + 60
  {
  }
}
