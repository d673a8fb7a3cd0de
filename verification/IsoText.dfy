/** Instants as ISO 8601 text, as `Date.prototype.toISOString` of ECMA-262 prints them, and the order of such texts. */
module IsoText {
  import opened Domain
  import Decimal

  const MS_PER_DAY := 86_400_000

  /** The largest distance of a valid time value from the epoch. */
  const MAX_TIME := 8_640_000_000_000_000

  predicate ValidTime(t: int) {
    -MAX_TIME <= t <= MAX_TIME
  }

  // ---------------------------------------------------------------- the calendar

  /** The day number of the first day of a year, counted from 1 January 1970. */
  function DayFromYear(y: int): int {
    365 * (y - 1970) + (y - 1969) / 4 - (y - 1901) / 100 + (y - 1601) / 400
  }

  predicate Leap(y: int) {
    y % 4 == 0 && (y % 100 != 0 || y % 400 == 0)
  }

  lemma Fours(y: int)
    ensures (y - 1968) / 4 == (y - 1969) / 4 + (if y % 4 == 0 then 1 else 0)
  {
  }

  lemma Hundreds(y: int)
    ensures (y - 1900) / 100 == (y - 1901) / 100 + (if y % 100 == 0 then 1 else 0)
  {
  }

  lemma FourHundreds(y: int)
    ensures (y - 1600) / 400 == (y - 1601) / 400 + (if y % 400 == 0 then 1 else 0)
  {
  }

  lemma LeapYearsNest(y: int)
    ensures (y % 100 == 0 ==> y % 4 == 0) && (y % 400 == 0 ==> y % 100 == 0)
  {
  }

  lemma YearLength(y: int)
    ensures DayFromYear(y + 1) == DayFromYear(y) + (if Leap(y) then 366 else 365)
  {
    Fours(y);
    Hundreds(y);
    FourHundreds(y);
    LeapYearsNest(y);
  }

  /** The year a day falls into. */
  function YearOf(day: int): (y: int)
    ensures DayFromYear(y) <= day < DayFromYear(y + 1)
  {
    YearLength(1969);
    if day >= 0 then YearUp(1970, day) else YearDown(1970, day)
  }

  function YearUp(from: int, day: int): (y: int)
    requires DayFromYear(from) <= day
    ensures DayFromYear(y) <= day < DayFromYear(y + 1)
    decreases day - DayFromYear(from)
  {
    YearLength(from);
    if day < DayFromYear(from + 1) then from else YearUp(from + 1, day)
  }

  function YearDown(from: int, day: int): (y: int)
    requires day < DayFromYear(from)
    ensures DayFromYear(y) <= day < DayFromYear(y + 1)
    decreases DayFromYear(from) - day
  {
    YearLength(from - 1);
    if DayFromYear(from - 1) <= day then from - 1 else YearDown(from - 1, day)
  }

  lemma {:induction false} LaterYearsStartLater(y: int, z: int)
    requires y <= z
    ensures DayFromYear(y) <= DayFromYear(z)
    decreases z - y
  {
    if y < z {
      YearLength(z - 1);
      LaterYearsStartLater(y, z - 1);
    }
  }

  lemma YearIsUnique(y: int, z: int, day: int)
    requires DayFromYear(y) <= day < DayFromYear(y + 1) && DayFromYear(z) <= day < DayFromYear(z + 1)
    ensures y == z
  {
    if y < z { LaterYearsStartLater(y + 1, z); }
    if z < y { LaterYearsStartLater(z + 1, y); }
  }

  const MONTH_STARTS: seq<nat> := [0, 31, 59, 90, 120, 151, 181, 212, 243, 273, 304, 334, 365]

  /** The day of the year on which a month begins, months and days counted from zero. */
  function MonthStart(month: nat, leap: bool): nat
    requires month <= 12
  {
    MONTH_STARTS[month] + (if leap && month >= 2 then 1 else 0)
  }

  predicate InMonth(dayInYear: nat, month: nat, leap: bool) {
    month < 12 && MonthStart(month, leap) <= dayInYear < MonthStart(month + 1, leap)
  }

  function MonthOf(dayInYear: nat, leap: bool): (month: nat)
    requires dayInYear < MonthStart(12, leap)
    ensures InMonth(dayInYear, month, leap)
  {
    MonthDown(11, dayInYear, leap)
  }

  function MonthDown(from: nat, dayInYear: nat, leap: bool): (month: nat)
    requires from < 12 && dayInYear < MonthStart(from + 1, leap)
    ensures InMonth(dayInYear, month, leap)
  {
    if MonthStart(from, leap) <= dayInYear then from else MonthDown(from - 1, dayInYear, leap)
  }

  /** A calendar date; month and day counted from one. */
  datatype Date = Date(year: int, month: nat, day: nat)

  predicate ProperDate(d: Date) {
    1 <= d.month <= 12 && 1 <= d.day <= MonthStart(d.month, Leap(d.year)) - MonthStart(d.month - 1, Leap(d.year))
  }

  lemma DayFitsItsYear(day: int)
    ensures 0 <= day - DayFromYear(YearOf(day)) < MonthStart(12, Leap(YearOf(day)))
  {
    YearLength(YearOf(day));
  }

  function DateOf(day: int): (d: Date)
    ensures ProperDate(d) && DayOf(d) == day
  {
    var year := YearOf(day);
    DayFitsItsYear(day);
    var dayInYear := day - DayFromYear(year);
    var month := MonthOf(dayInYear, Leap(year));
    Date(year, month + 1, dayInYear - MonthStart(month, Leap(year)) + 1)
  }

  /** The day number of a date. */
  function DayOf(d: Date): int
    requires ProperDate(d)
  {
    DayFromYear(d.year) + MonthStart(d.month - 1, Leap(d.year)) + d.day - 1
  }

  /** A time of day. */
  datatype Clock = Clock(hour: nat, minute: nat, second: nat, milli: nat)

  predicate ProperClock(c: Clock) {
    c.hour < 24 && c.minute < 60 && c.second < 60 && c.milli < 1000
  }

  function ClockOf(ms: nat): (c: Clock)
    requires ms < MS_PER_DAY
    ensures ProperClock(c) && MsOf(c) == ms
  {
    var s := ms / 1000;
    var m := s / 60;
    assert ms / 60_000 == m && ms / 3_600_000 == m / 60;
    Clock(ms / 3_600_000, ms / 60_000 % 60, ms / 1000 % 60, ms % 1000)
  }

  function MsOf(c: Clock): nat {
    ((c.hour * 60 + c.minute) * 60 + c.second) * 1000 + c.milli
  }

  // ---------------------------------------------------------------- printing

  /** The last `width` digits of a numeral. */
  function Pad(n: nat, width: nat): (s: string)
    ensures |s| == width && Decimal.AllDigits(s)
  {
    if width == 0 then "" else Pad(n / 10, width - 1) + [Decimal.Digit(n % 10)]
  }

  function Abs(y: int): nat {
    if y < 0 then -y else y
  }

  predicate FourDigitYear(y: int) {
    0 <= y <= 9999
  }

  /** Four digits, or a sign and six. */
  function YearText(y: int): string {
    if FourDigitYear(y) then Pad(y, 4) else (if y < 0 then "-" else "+") + Pad(Abs(y), 6)
  }

  function MonthDayText(d: Date): string {
    Pad(d.month, 2) + "-" + Pad(d.day, 2)
  }

  function ClockText(c: Clock): string {
    Pad(c.hour, 2) + ":" + Pad(c.minute, 2) + ":" + Pad(c.second, 2) + "." + Pad(c.milli, 3)
  }

  function ToIsoString(t: int): string {
    YearText(DateOf(t / MS_PER_DAY).year)
    + "-" + MonthDayText(DateOf(t / MS_PER_DAY)) + "T" + ClockText(ClockOf(t % MS_PER_DAY)) + "Z"
  }

  // ---------------------------------------------------------------- the order of texts

  /** The order in which the database compares texts: by character codes, from the left. */
  predicate Before(s: string, t: string) {
    if t == "" then false
    else if s == "" then true
    else s[0] < t[0] || (s[0] == t[0] && Before(s[1..], t[1..]))
  }

  lemma {:induction false} HeadsDecide(a: string, b: string, x: string, y: string)
    requires |a| == |b|
    ensures Before(a + x, b + y) <==> Before(a, b) || (a == b && Before(x, y))
  {
    if a == "" {
      assert a + x == x && b + y == y;
    } else {
      HeadsDecide(a[1..], b[1..], x, y);
      assert (a + x)[1..] == a[1..] + x && (b + y)[1..] == b[1..] + y;
      assert a == [a[0]] + a[1..] && b == [b[0]] + b[1..];
    }
  }

  function Pow10(n: nat): nat {
    if n == 0 then 1 else 10 * Pow10(n - 1)
  }

  /** Numerals of one width are ordered like their numbers. */
  lemma {:induction false} PadOrder(m: nat, n: nat, width: nat)
    requires m < Pow10(width) && n < Pow10(width)
    ensures Before(Pad(m, width), Pad(n, width)) <==> m < n
    ensures Pad(m, width) == Pad(n, width) <==> m == n
  {
    if width > 0 {
      var a, b := Pad(m / 10, width - 1), Pad(n / 10, width - 1);
      var c, d := Decimal.Digit(m % 10), Decimal.Digit(n % 10);
      PadOrder(m / 10, n / 10, width - 1);
      HeadsDecide(a, b, [c], [d]);
      assert c < d <==> m % 10 < n % 10;
      assert (a + [c])[..width - 1] == a && (b + [d])[..width - 1] == b;
    }
  }

  /** A numeral of a fixed width, and what follows it. */
  lemma FieldsDecide(m: nat, n: nat, width: nat, x: string, y: string)
    requires m < Pow10(width) && n < Pow10(width)
    ensures Before(Pad(m, width) + x, Pad(n, width) + y) <==> m < n || (m == n && Before(x, y))
  {
    PadOrder(m, n, width);
    HeadsDecide(Pad(m, width), Pad(n, width), x, y);
  }

  lemma SeparatorsMatch(c: char, x: string, y: string)
    ensures Before([c] + x, [c] + y) <==> Before(x, y)
  {
    HeadsDecide([c], [c], x, y);
  }

  lemma ClockRegrouped(h: string, mi: string, se: string, ms: string, q: string)
    ensures h + ":" + mi + ":" + se + "." + ms + q == h + (":" + (mi + (":" + (se + ("." + (ms + q))))))
  {
  }

  lemma ClockOrder(c: Clock, d: Clock)
    requires ProperClock(c) && ProperClock(d)
    ensures Before(ClockText(c) + "Z", ClockText(d) + "Z") <==> MsOf(c) < MsOf(d)
  {
    var c3, d3 := Pad(c.milli, 3) + "Z", Pad(d.milli, 3) + "Z";
    var c2, d2 := Pad(c.second, 2) + ("." + c3), Pad(d.second, 2) + ("." + d3);
    var c1, d1 := Pad(c.minute, 2) + (":" + c2), Pad(d.minute, 2) + (":" + d2);
    ClockRegrouped(Pad(c.hour, 2), Pad(c.minute, 2), Pad(c.second, 2), Pad(c.milli, 3), "Z");
    ClockRegrouped(Pad(d.hour, 2), Pad(d.minute, 2), Pad(d.second, 2), Pad(d.milli, 3), "Z");
    assert Pow10(2) == 100 && Pow10(3) == 1000;
    FieldsDecide(c.milli, d.milli, 3, "Z", "Z");
    SeparatorsMatch('.', c3, d3);
    FieldsDecide(c.second, d.second, 2, "." + c3, "." + d3);
    SeparatorsMatch(':', c2, d2);
    FieldsDecide(c.minute, d.minute, 2, ":" + c2, ":" + d2);
    SeparatorsMatch(':', c1, d1);
    FieldsDecide(c.hour, d.hour, 2, ":" + c1, ":" + d1);
  }

  lemma MonthDayOrder(d: Date, e: Date, x: string, y: string)
    requires ProperDate(d) && ProperDate(e) && d.year == e.year
    ensures Before(MonthDayText(d) + x, MonthDayText(e) + y) <==>
      DayOf(d) < DayOf(e) || (DayOf(d) == DayOf(e) && Before(x, y))
  {
    var d1, e1 := Pad(d.day, 2) + x, Pad(e.day, 2) + y;
    assert MonthDayText(d) + x == Pad(d.month, 2) + ("-" + d1) && MonthDayText(e) + y == Pad(e.month, 2) + ("-" + e1);
    assert Pow10(2) == 100;
    FieldsDecide(d.day, e.day, 2, x, y);
    SeparatorsMatch('-', d1, e1);
    FieldsDecide(d.month, e.month, 2, "-" + d1, "-" + e1);
    MonthsInOrder(d, e);
  }

  /** Within a year, dates are ordered by month, then day. */
  lemma MonthsInOrder(d: Date, e: Date)
    requires ProperDate(d) && ProperDate(e) && d.year == e.year
    ensures DayOf(d) < DayOf(e) <==> d.month < e.month || (d.month == e.month && d.day < e.day)
    ensures DayOf(d) == DayOf(e) <==> d.month == e.month && d.day == e.day
  {
    var leap := Leap(d.year);
    if d.month < e.month { MonthStartsGrow(d.month, e.month - 1, leap); }
    if e.month < d.month { MonthStartsGrow(e.month, d.month - 1, leap); }
  }

  lemma MonthStartsGrow(m: nat, n: nat, leap: bool)
    requires m <= n <= 12
    ensures MonthStart(m, leap) <= MonthStart(n, leap)
  {
  }

  function YearAt(t: int): int {
    DateOf(t / MS_PER_DAY).year
  }

  /** What follows the year. */
  function DateTail(d: Date, c: Clock): string {
    "-" + (MonthDayText(d) + ("T" + (ClockText(c) + "Z")))
  }

  function YearTail(t: int): string {
    DateTail(DateOf(t / MS_PER_DAY), ClockOf(t % MS_PER_DAY))
  }

  lemma Regrouped(y: string, d: string, c: string)
    ensures y + "-" + d + "T" + c + "Z" == y + ("-" + (d + ("T" + (c + "Z"))))
  {
  }

  lemma TextIsYearAndTail(t: int)
    ensures ToIsoString(t) == YearText(YearAt(t)) + YearTail(t)
  {
    Regrouped(YearText(YearAt(t)), MonthDayText(DateOf(t / MS_PER_DAY)), ClockText(ClockOf(t % MS_PER_DAY)));
  }

  lemma YearBounds(year: int, day: int)
    requires DayFromYear(year) <= day < DayFromYear(year + 1) && -100_000_000 <= day <= 100_000_000
    ensures Abs(year) <= 300_000
  {
    if year > 300_000 { LaterYearsStartLater(300_000, year); }
    if year < -300_000 { LaterYearsStartLater(year + 1, -300_000); }
  }

  lemma DayBounds(t: int)
    requires ValidTime(t)
    ensures -100_000_000 <= t / MS_PER_DAY <= 100_000_000
  {
  }

  lemma YearsFit(t: int)
    requires ValidTime(t)
    ensures Abs(YearAt(t)) < Pow10(6)
  {
    YearStarts(t);
    DayBounds(t);
    YearBounds(YearAt(t), t / MS_PER_DAY);
    assert Pow10(6) == 1_000_000;
  }

  lemma YearStarts(t: int)
    ensures DayFromYear(YearAt(t)) <= t / MS_PER_DAY < DayFromYear(YearAt(t) + 1)
  {
    assert YearAt(t) == YearOf(t / MS_PER_DAY);
  }

  lemma LaterDaysLaterYears(y: int, z: int, day: int, later: int)
    requires DayFromYear(y) <= day <= later < DayFromYear(z + 1)
    ensures y <= z
  {
    if z < y { LaterYearsStartLater(z + 1, y); }
  }

  lemma YearsInOrder(a: int, b: int)
    requires a <= b
    ensures YearAt(a) <= YearAt(b)
  {
    YearStarts(a);
    YearStarts(b);
    DaysAndTimes(a, b);
    LaterDaysLaterYears(YearAt(a), YearAt(b), a / MS_PER_DAY, b / MS_PER_DAY);
  }

  /** Instants are ordered by day, then time of day. */
  lemma DaysAndTimes(a: int, b: int)
    ensures a < b <==>
      a / MS_PER_DAY < b / MS_PER_DAY || (a / MS_PER_DAY == b / MS_PER_DAY && a % MS_PER_DAY < b % MS_PER_DAY)
    ensures a == b <==> a / MS_PER_DAY == b / MS_PER_DAY && a % MS_PER_DAY == b % MS_PER_DAY
  {
  }

  lemma DateTailOrder(d: Date, c: Clock, e: Date, k: Clock)
    requires ProperDate(d) && ProperDate(e) && ProperClock(c) && ProperClock(k) && d.year == e.year
    ensures Before(DateTail(d, c), DateTail(e, k)) <==>
      DayOf(d) < DayOf(e) || (DayOf(d) == DayOf(e) && MsOf(c) < MsOf(k))
  {
    var x, y := ClockText(c) + "Z", ClockText(k) + "Z";
    ClockOrder(c, k);
    SeparatorsMatch('T', x, y);
    MonthDayOrder(d, e, "T" + x, "T" + y);
    SeparatorsMatch('-', MonthDayText(d) + ("T" + x), MonthDayText(e) + ("T" + y));
  }

  lemma TailOrder(a: int, b: int)
    requires YearAt(a) == YearAt(b)
    ensures Before(YearTail(a), YearTail(b)) <==> a < b
  {
    DateTailOrder(DateOf(a / MS_PER_DAY), ClockOf(a % MS_PER_DAY), DateOf(b / MS_PER_DAY), ClockOf(b % MS_PER_DAY));
    DaysAndTimes(a, b);
  }

  /** The years for which an earlier instant in `y` and a later one in `z` have texts in the same order. */
  predicate TextFollowsTime(y: int, z: int) {
    || y == z
    || (FourDigitYear(y) && FourDigitYear(z))
    || (y < 0 && FourDigitYear(z))
    || (y > 9999 && z > 9999)
  }

  lemma SignAndDigits(sign: char, a: string, p: string)
    ensures [sign] + a + p == [sign] + (a + p)
  {
  }

  lemma YearTextOrder(y: int, z: int, p: string, q: string)
    requires y < z && Abs(y) < Pow10(6) && Abs(z) < Pow10(6)
    ensures Before(YearText(y) + p, YearText(z) + q) <==> TextFollowsTime(y, z)
  {
    assert Pow10(4) == 10_000;
    if FourDigitYear(y) && FourDigitYear(z) {
      FieldsDecide(y, z, 4, p, q);
    } else if FourDigitYear(y) || FourDigitYear(z) || (y < 0 && z > 9999) {
      FirstCharacters(y);
      FirstCharacters(z);
    } else {
      var sign := if y < 0 then '-' else '+';
      var a, b := Pad(Abs(y), 6), Pad(Abs(z), 6);
      SignAndDigits(sign, a, p);
      SignAndDigits(sign, b, q);
      FieldsDecide(Abs(y), Abs(z), 6, p, q);
      SeparatorsMatch(sign, a + p, b + q);
    }
  }

  lemma FirstCharacters(y: int)
    ensures YearText(y) != ""
    ensures if FourDigitYear(y) then Decimal.IsDigit(YearText(y)[0]) else YearText(y)[0] == (if y < 0 then '-' else '+')
  {
  }

  /** For an earlier and a later instant, the texts are in the same order exactly for the years of
      `TextFollowsTime`. */
  lemma TextOrder(a: int, b: int)
    requires ValidTime(a) && ValidTime(b) && a < b
    ensures Before(ToIsoString(a), ToIsoString(b)) <==> TextFollowsTime(YearAt(a), YearAt(b))
  {
    var y, z := YearAt(a), YearAt(b);
    TextIsYearAndTail(a);
    TextIsYearAndTail(b);
    YearsFit(a);
    YearsFit(b);
    YearsInOrder(a, b);
    if y == z {
      HeadsDecide(YearText(y), YearText(z), YearTail(a), YearTail(b));
      BeforeItself(YearText(y));
      TailOrder(a, b);
    } else {
      YearTextOrder(y, z, YearTail(a), YearTail(b));
    }
  }

  lemma {:induction false} BeforeItself(s: string)
    ensures !Before(s, s)
  {
    if s != "" { BeforeItself(s[1..]); }
  }

  lemma {:induction false} OneIsBefore(s: string, t: string)
    requires s != t
    ensures Before(s, t) <==> !Before(t, s)
  {
    if s != "" && t != "" && s[0] == t[0] {
      assert s == [s[0]] + s[1..] && t == [t[0]] + t[1..];
      OneIsBefore(s[1..], t[1..]);
    }
  }

  // ---------------------------------------------------------------- reading back

  lemma {:induction false} ValueOfPad(n: nat, width: nat)
    requires n < Pow10(width)
    ensures Decimal.Value(Pad(n, width)) == n
  {
    if width > 0 {
      ValueOfPad(n / 10, width - 1);
      assert Pad(n, width)[..width - 1] == Pad(n / 10, width - 1);
    }
  }

  function YearFromText(s: string): Option<int> {
    if |s| == 4 && Decimal.AllDigits(s) then Some(Decimal.Value(s))
    else if |s| == 7 && (s[0] == '+' || s[0] == '-') && Decimal.AllDigits(s[1..]) then
      var value: int := Decimal.Value(s[1..]); Some(if s[0] == '-' then -value else value)
    else None
  }

  /** The numeral at a place of a text. */
  function NumberAt(s: string, from: nat, width: nat): Option<nat> {
    if from + width <= |s| && Decimal.AllDigits(s[from..from + width])
    then Some(Decimal.Value(s[from..from + width]))
    else None
  }

  predicate Punctuated(s: string) {
    && |s| == 20 && s[0] == '-' && s[3] == '-' && s[6] == 'T'
    && s[9] == ':' && s[12] == ':' && s[15] == '.' && s[19] == 'Z'
  }

  function DayFromTail(year: int, tail: string): Option<int> {
    match (NumberAt(tail, 1, 2), NumberAt(tail, 4, 2))
    case (Some(month), Some(day)) =>
      if ProperDate(Date(year, month, day)) then Some(DayOf(Date(year, month, day))) else None
    case _ => None
  }

  function MsFromTail(tail: string): Option<nat> {
    match (NumberAt(tail, 7, 2), NumberAt(tail, 10, 2), NumberAt(tail, 13, 2), NumberAt(tail, 16, 3))
    case (Some(hour), Some(minute), Some(second), Some(milli)) =>
      if ProperClock(Clock(hour, minute, second, milli)) then Some(MsOf(Clock(hour, minute, second, milli))) else None
    case _ => None
  }

  /** The instant a text denotes, for texts of the shape that `toISOString` prints. */
  function FromIsoString(s: string): Option<int> {
    var n := if s != "" && Decimal.IsDigit(s[0]) then 4 else 7;
    if |s| < n || !Punctuated(s[n..]) then None
    else
      match YearFromText(s[..n])
      case None => None
      case Some(year) =>
        match (DayFromTail(year, s[n..]), MsFromTail(s[n..]))
        case (Some(day), Some(ms)) => Some(MS_PER_DAY * day + ms)
        case _ => None
  }

  lemma YearReadsBack(y: int)
    requires Abs(y) < Pow10(6)
    ensures YearFromText(YearText(y)) == Some(y) && |YearText(y)| == (if FourDigitYear(y) then 4 else 7)
  {
    assert Pow10(4) == 10_000;
    if FourDigitYear(y) {
      ValueOfPad(y, 4);
    } else {
      ValueOfPad(Abs(y), 6);
      assert YearText(y)[1..] == Pad(Abs(y), 6);
    }
  }

  lemma NumberReadsBack(p: string, n: nat, width: nat, q: string)
    requires n < Pow10(width)
    ensures NumberAt(p + (Pad(n, width) + q), |p|, width) == Some(n)
  {
    ValueOfPad(n, width);
    assert (p + (Pad(n, width) + q))[|p|..|p| + width] == Pad(n, width);
  }

  lemma DateReadsBack(d: Date, c: Clock)
    requires ProperDate(d)
    ensures NumberAt(DateTail(d, c), 1, 2) == Some(d.month) && NumberAt(DateTail(d, c), 4, 2) == Some(d.day)
  {
    assert Pow10(2) == 100;
    var m, dd, rest := Pad(d.month, 2), Pad(d.day, 2), "T" + (ClockText(c) + "Z");
    assert DateTail(d, c) == "-" + (m + ("-" + (dd + rest)));
    NumberReadsBack("-", d.month, 2, "-" + (dd + rest));
    assert DateTail(d, c) == ("-" + m + "-") + (dd + rest);
    NumberReadsBack("-" + m + "-", d.day, 2, rest);
  }

  lemma HourAndMinuteReadBack(d: Date, c: Clock)
    requires ProperClock(c)
    ensures NumberAt(DateTail(d, c), 7, 2) == Some(c.hour) && NumberAt(DateTail(d, c), 10, 2) == Some(c.minute)
  {
    assert Pow10(2) == 100;
    var p, h, mi := "-" + MonthDayText(d) + "T", Pad(c.hour, 2), Pad(c.minute, 2);
    var rest := Pad(c.second, 2) + ("." + (Pad(c.milli, 3) + "Z"));
    TailFromClock(d, c);
    NumberReadsBack(p, c.hour, 2, ":" + (mi + (":" + rest)));
    Shifted(p, h, ":", mi + (":" + rest));
    NumberReadsBack(p + h + ":", c.minute, 2, ":" + rest);
  }

  lemma SecondReadsBack(d: Date, c: Clock)
    requires ProperClock(c)
    ensures NumberAt(DateTail(d, c), 13, 2) == Some(c.second)
  {
    assert Pow10(2) == 100;
    var p, rest := ClockPrefix(d, c), "." + (Pad(c.milli, 3) + "Z");
    TailFromSecond(d, c);
    NumberReadsBack(p, c.second, 2, rest);
  }

  lemma MilliReadsBack(d: Date, c: Clock)
    requires ProperClock(c)
    ensures NumberAt(DateTail(d, c), 16, 3) == Some(c.milli)
  {
    assert Pow10(3) == 1000;
    var p, se := ClockPrefix(d, c), Pad(c.second, 2);
    TailFromSecond(d, c);
    Shifted(p, se, ".", Pad(c.milli, 3) + "Z");
    NumberReadsBack(p + se + ".", c.milli, 3, "Z");
  }

  /** The text between the year and the seconds. */
  function ClockPrefix(d: Date, c: Clock): (s: string)
    ensures |s| == 13
  {
    "-" + MonthDayText(d) + "T" + Pad(c.hour, 2) + ":" + Pad(c.minute, 2) + ":"
  }

  lemma TailFromSecond(d: Date, c: Clock)
    ensures DateTail(d, c) == ClockPrefix(d, c) + (Pad(c.second, 2) + ("." + (Pad(c.milli, 3) + "Z")))
  {
    var p, h, mi := "-" + MonthDayText(d) + "T", Pad(c.hour, 2), Pad(c.minute, 2);
    var rest := Pad(c.second, 2) + ("." + (Pad(c.milli, 3) + "Z"));
    TailFromClock(d, c);
    Shifted(p, h, ":", mi + (":" + rest));
    Shifted(p + h + ":", mi, ":", rest);
  }

  lemma Shifted(p: string, a: string, sep: string, q: string)
    ensures p + (a + (sep + q)) == (p + a + sep) + q
  {
  }

  lemma TailFromClock(d: Date, c: Clock)
    ensures DateTail(d, c) == ("-" + MonthDayText(d) + "T")
      + (Pad(c.hour, 2) + (":" + (Pad(c.minute, 2) + (":" + (Pad(c.second, 2) + ("." + (Pad(c.milli, 3) + "Z")))))))
  {
    ClockRegrouped(Pad(c.hour, 2), Pad(c.minute, 2), Pad(c.second, 2), Pad(c.milli, 3), "Z");
    Shifted("-", MonthDayText(d), "T", ClockText(c) + "Z");
  }

  lemma TailIsPunctuated(d: Date, c: Clock)
    ensures Punctuated(DateTail(d, c))
  {
  }

  lemma TailReadsBack(d: Date, c: Clock)
    requires ProperDate(d) && ProperClock(c)
    ensures Punctuated(DateTail(d, c))
    ensures DayFromTail(d.year, DateTail(d, c)) == Some(DayOf(d)) && MsFromTail(DateTail(d, c)) == Some(MsOf(c))
  {
    TailIsPunctuated(d, c);
    DateReadsBack(d, c);
    HourAndMinuteReadBack(d, c);
    SecondReadsBack(d, c);
    MilliReadsBack(d, c);
  }

  lemma TextReadsBack(s: string, d: Date, c: Clock, t: int)
    requires ProperDate(d) && ProperClock(c) && Abs(d.year) < Pow10(6)
    requires s == YearText(d.year) + DateTail(d, c) && MS_PER_DAY * DayOf(d) + MsOf(c) == t
    ensures FromIsoString(s) == Some(t)
  {
    YearReadsBack(d.year);
    FirstCharacters(d.year);
    TailReadsBack(d, c);
    PartsRead(s, YearText(d.year), DateTail(d, c), d.year, DayOf(d), MsOf(c));
  }

  lemma PartsRead(s: string, y: string, tail: string, year: int, day: int, ms: nat)
    requires y != "" && |y| == (if Decimal.IsDigit(y[0]) then 4 else 7) && YearFromText(y) == Some(year)
    requires Punctuated(tail) && DayFromTail(year, tail) == Some(day) && MsFromTail(tail) == Some(ms)
    requires s == y + tail
    ensures FromIsoString(s) == Some(MS_PER_DAY * day + ms)
  {
    assert s[..|y|] == y && s[|y|..] == tail;
  }

  lemma DayAndMs(t: int)
    ensures MS_PER_DAY * (t / MS_PER_DAY) + t % MS_PER_DAY == t
  {
  }

  /** Reading a printed instant gives it back. */
  lemma IsoRoundTrip(t: int)
    requires ValidTime(t)
    ensures FromIsoString(ToIsoString(t)) == Some(t)
  {
    TextIsYearAndTail(t);
    YearsFit(t);
    DayAndMs(t);
    TextReadsBack(ToIsoString(t), DateOf(t / MS_PER_DAY), ClockOf(t % MS_PER_DAY), t);
  }

  /** The text comparison of the database, for any two instants. */
  lemma TextComparison(a: int, b: int)
    requires ValidTime(a) && ValidTime(b)
    ensures Before(ToIsoString(a), ToIsoString(b)) <==>
      if a < b then TextFollowsTime(YearAt(a), YearAt(b)) else a != b && !TextFollowsTime(YearAt(b), YearAt(a))
  {
    if a < b {
      TextOrder(a, b);
    } else if a == b {
      BeforeItself(ToIsoString(a));
    } else {
      TextOrder(b, a);
      IsoRoundTrip(a);
      IsoRoundTrip(b);
      OneIsBefore(ToIsoString(a), ToIsoString(b));
    }
  }

  lemma YearIs(t: int, y: int)
    requires DayFromYear(y) <= t / MS_PER_DAY < DayFromYear(y + 1)
    ensures YearAt(t) == y
  {
    YearStarts(t);
    YearIsUnique(YearAt(t), y, t / MS_PER_DAY);
  }

  const FIRST_OF_YEAR_10000 := 253_402_300_800_000

  /** The last instant of the year 9999 and the one after it have texts in the wrong order. */
  lemma TextOrderFailsAfterYear9999()
    ensures !Before(ToIsoString(FIRST_OF_YEAR_10000 - 1), ToIsoString(FIRST_OF_YEAR_10000))
  {
    YearIs(FIRST_OF_YEAR_10000 - 1, 9999);
    YearIs(FIRST_OF_YEAR_10000, 10_000);
    TextOrder(FIRST_OF_YEAR_10000 - 1, FIRST_OF_YEAR_10000);
  }
}
