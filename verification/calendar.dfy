/** Calendar arithmetic in the Europe/Berlin reference zone. A date is an epoch day
    (0 = 1970-01-01, a Thursday); a wall-clock time is a date plus hour, minute and second.
    The Gregorian conversion is the days-from-civil / civil-from-days algorithm in its
    March-based form, which needs only floor division by positive constants. */
module Calendar {
  import opened Text

  type Hour = h: int | 0 <= h < 24
  type Minute = m: int | 0 <= m < 60
  type Second = s: int | 0 <= s < 60

  /** A Europe/Berlin wall-clock time: the `LocalDateTime` of a `ZonedDateTime`, or the
      calendar components Swift extracts with `dateComponents(in:from:)`. */
  datatype LocalDateTime = LocalDateTime(date: int, hour: Hour, minute: Minute, second: Second)

  /** ISO-8601 day of week, Monday = 1 … Sunday = 7 (`DayOfWeek.value`). */
  function IsoWeekday(day: int): (w: int)
    ensures 1 <= w <= 7
    ensures w == 1 <==> (day - 4) % 7 == 0
  {
    ((day + 3) % 7) + 1
  }

  /** The weekday key of the Android rule table: `dayOfWeek.value % 7`, Sunday = 0 … Saturday = 6. */
  function AndroidWeekday(day: int): (k: int)
    ensures 0 <= k <= 6
    ensures k == 0 <==> IsoWeekday(day) == 7
    ensures k != 0 ==> k == IsoWeekday(day)
  {
    IsoWeekday(day) % 7
  }

  /** The Gregorian `Calendar` weekday component used on iOS: Sunday = 1 … Saturday = 7. */
  function GregorianWeekday(day: int): (k: int)
    ensures 1 <= k <= 7
    ensures k == 1 <==> IsoWeekday(day) == 7
    ensures k != 1 ==> k == IsoWeekday(day) + 1
    ensures k == AndroidWeekday(day) + 1
  {
    IsoWeekday(day) % 7 + 1
  }

  /** Consecutive days have consecutive ISO weekdays, Sunday wrapping to Monday. */
  lemma IsoWeekdaySuccessor(day: int)
    ensures IsoWeekday(day + 1) == IsoWeekday(day) % 7 + 1
    ensures IsoWeekday(day + 7) == IsoWeekday(day)
  {
  }

  datatype CivilDate = CivilDate(year: int, month: int, day: int)

  /** The 400-year era (of 146097 days, starting on 1 March) an epoch day falls in. */
  function Era(z: int): int {
    (z + 719468) / 146097
  }

  function DayOfEra(z: int): (doe: int)
    ensures 0 <= doe < 146097
  {
    z + 719468 - Era(z) * 146097
  }

  /** Days of an era before its March-based year `yoe`: 365 a year, one more every fourth
      year, one fewer every hundredth. */
  function DaysBeforeYear(yoe: int): int {
    365 * yoe + yoe / 4 - yoe / 100
  }

  /** The year of the era a day of the era falls in. An era splits into four centuries (the
      last one day longer), a century into 4-year cycles (the last of a short century one day
      shorter), and a cycle into years (the last one day longer). */
  function YearOfEra(doe: int): (yoe: int)
    requires 0 <= doe < 146097
    ensures 0 <= yoe < 400
    ensures 0 <= doe - DaysBeforeYear(yoe) <= 365
  {
    var century := if doe / 36524 < 3 then doe / 36524 else 3;
    var inCentury := doe - 36524 * century;
    assert 0 <= inCentury <= 36524;
    var cycle := inCentury / 1461;
    assert 0 <= cycle <= 24;
    var inCycle := inCentury - 1461 * cycle;
    var yearInCycle := if inCycle / 365 < 3 then inCycle / 365 else 3;
    var yoe := 100 * century + 4 * cycle + yearInCycle;
    assert yoe / 4 == 25 * century + cycle;
    assert yoe / 100 == century;
    yoe
  }

  /** Months counted from March: 0 = March … 11 = February. */
  function MonthIndex(doy: int): (mp: int)
    requires 0 <= doy <= 365
    ensures 0 <= mp <= 11
  {
    (5 * doy + 2) / 153
  }

  /** Days of a March-based year before month index `mp`. */
  function DaysBeforeMonth(mp: int): int {
    (153 * mp + 2) / 5
  }

  function CalendarMonth(mp: int): (m: int)
    requires 0 <= mp <= 11
    ensures 1 <= m <= 12
    ensures m <= 2 <==> mp >= 10
  {
    if mp < 10 then mp + 3 else mp - 9
  }

  function MonthFromCalendar(m: int): int {
    if m > 2 then m - 3 else m + 9
  }

  /** The proleptic Gregorian date of an epoch day. */
  function CivilFromDays(z: int): (c: CivilDate)
    ensures 1 <= c.month <= 12
    ensures 1 <= c.day <= 31
  {
    var doe := DayOfEra(z);
    var yoe := YearOfEra(doe);
    var doy := doe - DaysBeforeYear(yoe);
    var mp := MonthIndex(doy);
    var m := CalendarMonth(mp);
    var y := yoe + Era(z) * 400;
    CivilDate(if m <= 2 then y + 1 else y, m, doy - DaysBeforeMonth(mp) + 1)
  }

  /** The epoch day of a Gregorian date (the partner of `CivilFromDays`). */
  function DaysFromCivil(c: CivilDate): int {
    var y := if c.month <= 2 then c.year - 1 else c.year;
    var era := y / 400;
    var yoe := y - era * 400;
    var doy := DaysBeforeMonth(MonthFromCalendar(c.month)) + c.day - 1;
    era * 146097 + DaysBeforeYear(yoe) + doy - 719468
  }

  lemma CivilRoundTrip(z: int)
    ensures DaysFromCivil(CivilFromDays(z)) == z
  {
    var doe := DayOfEra(z);
    var yoe := YearOfEra(doe);
    var doy := doe - DaysBeforeYear(yoe);
    var mp := MonthIndex(doy);
    var m := CalendarMonth(mp);
    var y := yoe + Era(z) * 400;
    var c := CivilFromDays(z);
    assert (if c.month <= 2 then c.year - 1 else c.year) == y;
    assert y / 400 == Era(z);
    assert MonthFromCalendar(c.month) == mp;
  }

  lemma CivilFromDaysInjective(a: int, b: int)
    ensures CivilFromDays(a) == CivilFromDays(b) ==> a == b
  {
    CivilRoundTrip(a);
    CivilRoundTrip(b);
  }

  /** The first and last epoch day whose year has four digits: 0001-01-01 and 9999-12-31. */
  const FirstFourDigitDay: int := -719162
  const LastFourDigitDay: int := 2932896

  lemma FourDigitDayBounds()
    ensures DaysFromCivil(CivilDate(1, 1, 1)) == FirstFourDigitDay
    ensures DaysFromCivil(CivilDate(9999, 12, 31)) == LastFourDigitDay
  {
  }

  lemma FourDigitYears(z: int)
    requires FirstFourDigitDay <= z <= LastFourDigitDay
    ensures 1 <= CivilFromDays(z).year <= 9999
  {
    var doe := DayOfEra(z);
    var yoe := YearOfEra(doe);
    var doy := doe - DaysBeforeYear(yoe);
    assert 0 <= Era(z) <= 24;
    if Era(z) == 0 && yoe == 0 {
      assert doy >= 306;
      assert MonthIndex(doy) >= 10;
    }
    if Era(z) == 24 && yoe == 399 {
      assert doy <= 305;
      assert MonthIndex(doy) <= 9;
    }
  }

  /** The year-of-era field `yyyy` of the date patterns (1 BC is year 1 of the earlier era). */
  function YearField(year: int): string {
    ZeroPad(if year >= 1 then year else 1 - year, 4)
  }

  lemma YearFieldWidth(z: int)
    ensures FirstFourDigitDay <= z <= LastFourDigitDay ==> |YearField(CivilFromDays(z).year)| == 4
  {
    if FirstFourDigitDay <= z <= LastFourDigitDay {
      FourDigitYears(z);
      FourDigitWidth(CivilFromDays(z).year);
    }
  }

  /** The `dd.MM.yyyy` label of a date. */
  function DateLabel(z: int): (s: string)
    ensures FirstFourDigitDay <= z <= LastFourDigitDay ==> |s| == 10
    ensures FirstFourDigitDay <= z <= LastFourDigitDay ==> s[2] == '.' && s[5] == '.'
  {
    var c := CivilFromDays(z);
    TwoDigitWidth(c.day);
    TwoDigitWidth(c.month);
    YearFieldWidth(z);
    ZeroPad(c.day, 2) + "." + ZeroPad(c.month, 2) + "." + YearField(c.year)
  }

  /** The epoch day a `dd.MM.yyyy` label names (the partner of `DateLabel`); 0 for text of
      another shape. */
  function LabelDay(s: string): int {
    if |s| == 10 && AllDigits(s[0..2]) && AllDigits(s[3..5]) && AllDigits(s[6..10]) then
      DaysFromCivil(CivilDate(DecimalValue(s[6..10]), DecimalValue(s[3..5]), DecimalValue(s[0..2])))
    else 0
  }

  /** Within the four-digit years a date label names its date again. */
  lemma DateLabelRoundTrip(z: int)
    requires FirstFourDigitDay <= z <= LastFourDigitDay
    ensures LabelDay(DateLabel(z)) == z
  {
    var c := CivilFromDays(z);
    FourDigitYears(z);
    TwoDigitWidth(c.day);
    TwoDigitWidth(c.month);
    FourDigitWidth(c.year);
    var s := DateLabel(z);
    assert s[0..2] == ZeroPad(c.day, 2);
    assert s[3..5] == ZeroPad(c.month, 2);
    assert s[6..10] == ZeroPad(c.year, 4);
    ZeroPadRoundTrip(c.day, 2);
    ZeroPadRoundTrip(c.month, 2);
    ZeroPadRoundTrip(c.year, 4);
    CivilRoundTrip(z);
  }

  /** Within the four-digit years, distinct dates have distinct labels. */
  lemma DateLabelInjective(a: int, b: int)
    requires FirstFourDigitDay <= a <= LastFourDigitDay
    requires FirstFourDigitDay <= b <= LastFourDigitDay
    ensures DateLabel(a) == DateLabel(b) ==> a == b
  {
    DateLabelRoundTrip(a);
    DateLabelRoundTrip(b);
  }

  /** The `HH:mm` label of a wall-clock time. */
  function TimeLabel(t: LocalDateTime): (s: string)
    ensures |s| == 5 && s[2] == ':'
    ensures AllDigits(s[..2]) && AllDigits(s[3..])
    ensures DecimalValue(s[..2]) == t.hour && DecimalValue(s[3..]) == t.minute
  {
    TwoDigitWidth(t.hour);
    TwoDigitWidth(t.minute);
    ZeroPadRoundTrip(t.hour, 2);
    ZeroPadRoundTrip(t.minute, 2);
    var s := ZeroPad(t.hour, 2) + ":" + ZeroPad(t.minute, 2);
    assert s[..2] == ZeroPad(t.hour, 2) && s[3..] == ZeroPad(t.minute, 2);
    s
  }

  /** The German full weekday names, Monday first. */
  const GermanWeekdays: seq<string> :=
    ["Montag", "Dienstag", "Mittwoch", "Donnerstag", "Freitag", "Samstag", "Sonntag"]

  /** The German full weekday name (`TextStyle.FULL`, `Locale.GERMAN` / pattern `EEEE`, `de_DE`). */
  function DayLabel(z: int): (name: string)
    ensures name in GermanWeekdays
    ensures name == "Montag" <==> IsoWeekday(z) == 1
    ensures name == "Sonntag" <==> IsoWeekday(z) == 7
  {
    GermanWeekdays[IsoWeekday(z) - 1]
  }
}
