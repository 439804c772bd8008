/** The bucketing of a moon age into the eight named phases printed in a
    calendar event's description. The age itself (days since a reference new
    moon, modulo the synodic month) is computed in floating point by the
    source; here it is an input, in hundredths of a day. For a real age `a`,
    `a < k / 100` holds exactly when `floor(100 * a) < k`, so comparing the
    integer `floor(100 * a)` with the thresholds below buckets every real
    age as the decimal thresholds do. The source compares doubles, whose
    nearest values to 16.61, 23.99 and 27.68 lie just below those decimals;
    an age equal to one of those three doubles is the one place the two
    readings part. */
module MoonPhase {

  datatype Phase =
    | NewMoon
    | WaxingCrescent
    | FirstQuarter
    | WaxingGibbous
    | FullMoon
    | WaningGibbous
    | LastQuarter
    | WaningCrescent

  /** The name the event description shows. */
  function PhaseName(p: Phase): string {
    match p
    case NewMoon => "Luna Nueva"
    case WaxingCrescent => "Luna Creciente"
    case FirstQuarter => "Cuarto Creciente"
    case WaxingGibbous => "Luna Gibosa Creciente"
    case FullMoon => "Luna Llena"
    case WaningGibbous => "Luna Gibosa Menguante"
    case LastQuarter => "Cuarto Menguante"
    case WaningCrescent => "Luna Menguante"
  }

  /** The observing-conditions note attached to each phase. */
  function Visibility(p: Phase): string {
    match p
    case NewMoon => "Excelente para observación"
    case WaxingCrescent => "Muy buena para observación"
    case FirstQuarter => "Buena para observación"
    case WaxingGibbous => "Regular para observación"
    case FullMoon => "No recomendado - mucha luz lunar"
    case WaningGibbous => "Regular para observación"
    case LastQuarter => "Buena para observación"
    case WaningCrescent => "Muy buena para observación"
  }

  /** The upper bounds of the first eight buckets, in hundredths of a day:
      1.85, 5.54, 9.23, 12.91, 16.61, 20.30, 23.99 and 27.68 days. */
  const Thresholds: seq<int> := [185, 554, 923, 1291, 1661, 2030, 2399, 2768]

  /** The phases in the order of the buckets. */
  const PhaseOrder: seq<Phase> :=
    [NewMoon, WaxingCrescent, FirstQuarter, WaxingGibbous, FullMoon, WaningGibbous, LastQuarter, WaningCrescent]

  /** The source's `if`/`else if` chain over the moon age. An age at or past
      the last threshold is a new moon again. */
  function PhaseOfAge(age: int): Phase {
    if age < 185 then NewMoon
    else if age < 554 then WaxingCrescent
    else if age < 923 then FirstQuarter
    else if age < 1291 then WaxingGibbous
    else if age < 1661 then FullMoon
    else if age < 2030 then WaningGibbous
    else if age < 2399 then LastQuarter
    else if age < 2768 then WaningCrescent
    else NewMoon
  }

  /** How many of `bounds` are at or below `age`. */
  function CountAtOrBelow(bounds: seq<int>, age: int): (n: nat)
    ensures n <= |bounds|
  {
    if |bounds| == 0 then 0
    else (if bounds[0] <= age then 1 else 0) + CountAtOrBelow(bounds[1..], age)
  }

  /** Every threshold is strictly above the one before it. */
  lemma ThresholdsIncreasing()
    ensures forall i, j :: 0 <= i < j < |Thresholds| ==> Thresholds[i] < Thresholds[j]
  {
  }

  /** In a strictly increasing list, the bounds at or below `age` form a
      prefix, so their count locates `age` between two consecutive bounds. */
  lemma {:induction false} CountLocates(bounds: seq<int>, age: int)
    requires forall i, j :: 0 <= i < j < |bounds| ==> bounds[i] < bounds[j]
    ensures var n := CountAtOrBelow(bounds, age);
      (forall i :: 0 <= i < n ==> bounds[i] <= age) && (forall i :: n <= i < |bounds| ==> age < bounds[i])
  {
    if |bounds| > 0 {
      CountLocates(bounds[1..], age);
      var n := CountAtOrBelow(bounds, age);
      if bounds[0] <= age {
        forall i | 0 <= i < n ensures bounds[i] <= age {
          if i > 0 {
            assert bounds[i] == bounds[1..][i - 1];
          }
        }
        forall i | n <= i < |bounds| ensures age < bounds[i] {
          assert bounds[i] == bounds[1..][i - 1];
        }
      } else {
        assert n == 0;
      }
    }
  }

  /** The chain is the bucket table: an age with exactly `n` thresholds at or
      below it falls in bucket `n`, and the ninth bucket wraps to the first. */
  lemma PhaseOfAgeIsBucket(age: int)
    ensures PhaseOfAge(age) == PhaseOrder[CountAtOrBelow(Thresholds, age) % 8]
  {
    ThresholdsIncreasing();
    CountLocates(Thresholds, age);
    var n := CountAtOrBelow(Thresholds, age);
    assert n < 8 ==> age < Thresholds[n];
    assert n > 0 ==> Thresholds[n - 1] <= age;
  }

  /** Age 0 and every age from 27.68 days on are a new moon; half a synodic
      month (14.77 days) is a full moon. */
  lemma NewAndFullMoon(age: int)
    requires age >= 2768
    ensures PhaseOfAge(0) == NewMoon && PhaseOfAge(age) == NewMoon
    ensures PhaseOfAge(1477) == FullMoon
  {
  }

  /** Over one cycle, a later age is never in an earlier bucket. */
  lemma PhaseMonotoneInCycle(a: int, b: int)
    requires 0 <= a <= b < 2768
    ensures CountAtOrBelow(Thresholds, a) <= CountAtOrBelow(Thresholds, b) < 8
  {
    ThresholdsIncreasing();
    CountLocates(Thresholds, a);
    CountLocates(Thresholds, b);
    var na := CountAtOrBelow(Thresholds, a);
    var nb := CountAtOrBelow(Thresholds, b);
    assert b < Thresholds[7];
    assert nb < 8 && b < Thresholds[nb];
  }
}
