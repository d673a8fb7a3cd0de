/** What the conditional SQL update of the account cooldown keeps: it compares ISO texts, not instants. */
module CooldownText {
  import opened Domain
  import opened Transitions
  import opened IsoText

  /** The two instants have texts in the order of time. */
  predicate TextsAgree(a: int, b: int) {
    if a <= b then TextFollowsTime(YearAt(a), YearAt(b)) else TextFollowsTime(YearAt(b), YearAt(a))
  }

  /** What the conditional SQL update keeps of a stored and a new instant. */
  function KeptByText(stored: Option<int>, x: int): (kept: Option<int>)
    ensures kept.Some? && (kept == Some(x) || kept == stored)
  {
    if stored.None? || Before(ToIsoString(stored.value), ToIsoString(x)) then Some(x) else stored
  }

  /** The comparison of texts keeps the later instant exactly when the texts are in the order of time, in particular
      between the years 0 and 9999; otherwise it keeps the earlier one. */
  lemma TextKeepsTheLater(stored: Option<int>, x: int)
    requires ValidTime(x) && (stored.Some? ==> ValidTime(stored.value))
    ensures KeptByText(stored, x) == Later(stored, x) <==> stored.None? || TextsAgree(stored.value, x)
    ensures stored.Some? && !TextsAgree(stored.value, x) ==>
      KeptByText(stored, x) == Some(if stored.value < x then stored.value else x)
    ensures stored.Some? && FourDigitYear(YearAt(stored.value)) && FourDigitYear(YearAt(x)) ==>
      TextsAgree(stored.value, x)
  {
    if stored.Some? { TextComparison(stored.value, x); }
  }

  /** Within the years 0 to 9999 the account cooldown never moves back. */
  lemma CooldownNeverMovesBack(stored: Option<int>, x: int)
    requires ValidTime(x) && FourDigitYear(YearAt(x))
    requires stored.Some? ==> ValidTime(stored.value) && FourDigitYear(YearAt(stored.value))
    ensures NotAfter(stored, KeptByText(stored, x)) && NotAfter(Some(x), KeptByText(stored, x))
  {
    TextKeepsTheLater(stored, x);
  }

  /** Offering an instant moves a stored cooldown back exactly when the instant is earlier and the texts are not in the
      order of time. */
  predicate MovesBack(stored: Option<int>, x: int) {
    stored.Some? && ValidTime(x) && x < stored.value && !TextFollowsTime(YearAt(x), YearAt(stored.value))
  }

  lemma MovesBackExactly(stored: Option<int>, x: int)
    requires ValidTime(x) && (stored.Some? ==> ValidTime(stored.value))
    ensures NotAfter(stored, KeptByText(stored, x)) <==> !MovesBack(stored, x)
  {
    TextKeepsTheLater(stored, x);
  }

  const FIRST_OF_YEAR_0 := -62_167_219_200_000

  /** An instant of the years 0 to 9999. */
  predicate FourDigitInstant(t: int) {
    FIRST_OF_YEAR_0 <= t < FIRST_OF_YEAR_10000
  }

  lemma FourDigitInstantsAre(t: int)
    ensures FourDigitInstant(t) <==> FourDigitYear(YearAt(t))
  {
    YearStarts(t);
    if t < FIRST_OF_YEAR_0 {
      LaterDaysLaterYears(YearAt(t), -1, t / MS_PER_DAY, DayFromYear(0) - 1);
    } else if t < FIRST_OF_YEAR_10000 {
      LaterDaysLaterYears(0, YearAt(t), DayFromYear(0), t / MS_PER_DAY);
      LaterDaysLaterYears(YearAt(t), 9999, t / MS_PER_DAY, DayFromYear(10_000) - 1);
    } else {
      LaterDaysLaterYears(10_000, YearAt(t), DayFromYear(10_000), t / MS_PER_DAY);
    }
  }

  /** Between the years 0 and 9999 nothing moves back. */
  lemma FourDigitsNeverMoveBack(stored: Option<int>, x: int)
    requires FourDigitInstant(x) && (stored.Some? ==> FourDigitInstant(stored.value))
    ensures !MovesBack(stored, x)
  {
    FourDigitInstantsAre(x);
    if stored.Some? { FourDigitInstantsAre(stored.value); }
  }

  /** An instant of the year 11533 gives way to one of the year 2027. */
  lemma FarCooldownGivesWay()
    ensures KeptByText(Some(301_800_000_000_000), 1_800_000_000_000) == Some(1_800_000_000_000)
    ensures MovesBack(Some(301_800_000_000_000), 1_800_000_000_000)
  {
    FourDigitInstantsAre(301_800_000_000_000);
    FourDigitInstantsAre(1_800_000_000_000);
    YearIs(301_800_000_000_000, 11_533);
    TextKeepsTheLater(Some(301_800_000_000_000), 1_800_000_000_000);
  }
}
