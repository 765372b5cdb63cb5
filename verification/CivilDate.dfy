// The zone-free calendar of packages/kernel/src/recurrence/zoned-time.ts. The platform `Date` underneath it is
// modelled by ECMA-262 section 21.4.1 (day numbers from 1970-01-01), including the one place where it is not the
// Gregorian calendar: Date.UTC reads the years 0 to 99 as 1900 to 1999, which the source corrects for the year only.
module CivilDate {
  datatype LocalDate = LocalDate(year: int, month: int, day: int)
  datatype LocalDateTime = LocalDateTime(date: LocalDate, hour: int, minute: int, second: int)

  predicate IsLeap(y: int) { y % 4 == 0 && (y % 100 != 0 || y % 400 == 0) }

  function YearLength(y: int): int { if IsLeap(y) then 366 else 365 }

  // DayFromYear of ECMA-262: the day number of 1 January.
  function DayFromYear(y: int): int {
    365 * (y - 1970) + (y - 1969) / 4 - (y - 1901) / 100 + (y - 1601) / 400
  }

  function DaysBefore(y: int, m: int): int
    requires 1 <= m <= 13
  {
    (if m > 2 && IsLeap(y) then 1 else 0)
    + (match m
       case 1 => 0 case 2 => 31 case 3 => 59 case 4 => 90 case 5 => 120 case 6 => 151 case 7 => 181
       case 8 => 212 case 9 => 243 case 10 => 273 case 11 => 304 case 12 => 334 case 13 => 365)
  }

  function MonthLength(y: int, m: int): int
    requires 1 <= m <= 12
  {
    DaysBefore(y, m + 1) - DaysBefore(y, m)
  }

  // A date of the (proleptic) Gregorian calendar.
  predicate Gregorian(d: LocalDate) { 1 <= d.month <= 12 && 1 <= d.day <= MonthLength(d.year, d.month) }

  // MakeDay of ECMA-262 for a month in 1..12; a day past the month's end runs on into the next one.
  function DayNumber(d: LocalDate): int
    requires 1 <= d.month <= 12
  {
    DayFromYear(d.year) + DaysBefore(d.year, d.month) + d.day - 1
  }

  lemma Multiples(d: int, k: int)
    requires d > 0
    ensures k >= 1 ==> d * k >= d
    ensures k <= -1 ==> d * k <= -d
  {}

  // Division with remainder is unique.
  lemma RemainderIs(a: int, d: int, q: int, r: int)
    requires a == d * q + r && 0 <= r < d
    ensures a / d == q && a % d == r
  {
    var k := a / d - q;
    assert d * k == r - a % d;
    Multiples(d, k);
  }

  lemma NextQuotient(a: int, d: int)
    requires d > 0
    ensures (a + 1) / d == a / d + (if (a + 1) % d == 0 then 1 else 0)
  {
    if a % d == d - 1 { RemainderIs(a + 1, d, a / d + 1, 0); } else { RemainderIs(a + 1, d, a / d, a % d + 1); }
  }

  lemma Residues(y: int)
    ensures (y - 1968) % 4 == y % 4 && (y - 1900) % 100 == y % 100 && (y - 1600) % 400 == y % 400
  {
    assert y - 1968 == 4 * (y / 4 - 492) + y % 4;
    assert y - 1900 == 100 * (y / 100 - 19) + y % 100;
    assert y - 1600 == 400 * (y / 400 - 4) + y % 400;
    RemainderIs(y - 1968, 4, y / 4 - 492, y % 4);
    RemainderIs(y - 1900, 100, y / 100 - 19, y % 100);
    RemainderIs(y - 1600, 400, y / 400 - 4, y % 400);
  }

  lemma FourHundreds(y: int)
    requires y % 400 == 0
    ensures y % 100 == 0
  {
    assert y == 400 * (y / 400);
    RemainderIs(y, 100, 4 * (y / 400), 0);
  }

  lemma Hundreds(y: int)
    requires y % 100 == 0
    ensures y % 4 == 0
  {
    assert y == 100 * (y / 100);
    RemainderIs(y, 4, 25 * (y / 100), 0);
  }

  lemma LeapNesting(y: int)
    ensures y % 400 == 0 ==> y % 100 == 0
    ensures y % 100 == 0 ==> y % 4 == 0
  {
    if y % 400 == 0 { FourHundreds(y); }
    if y % 100 == 0 { Hundreds(y); }
  }

  lemma YearStep(y: int)
    ensures DayFromYear(y + 1) == DayFromYear(y) + YearLength(y)
  {
    NextQuotient(y - 1969, 4);
    NextQuotient(y - 1901, 100);
    NextQuotient(y - 1601, 400);
    Residues(y);
    LeapNesting(y);
  }

  // YearFromTime: the year whose 1 January is the last one not after day n, searched from a guess.
  function YearFrom(n: int, guess: int): (y: int)
    ensures DayFromYear(y) <= n < DayFromYear(y + 1)
    decreases if n < DayFromYear(guess) then DayFromYear(guess) - n + 366 else n - DayFromYear(guess)
  {
    YearStep(guess);
    YearStep(guess - 1);
    if n < DayFromYear(guess) then YearFrom(n, guess - 1)
    else if DayFromYear(guess + 1) <= n then YearFrom(n, guess + 1)
    else guess
  }

  function MonthFrom(y: int, dayOfYear: int, m: int): (r: int)
    requires 1 <= m <= 12 && DaysBefore(y, m) <= dayOfYear < YearLength(y)
    ensures 1 <= r <= 12 && DaysBefore(y, r) <= dayOfYear < DaysBefore(y, r + 1)
    decreases 12 - m
  {
    if dayOfYear < DaysBefore(y, m + 1) then m else MonthFrom(y, dayOfYear, m + 1)
  }

  function DateInYear(y: int, dayOfYear: int): (d: LocalDate)
    requires 0 <= dayOfYear < YearLength(y)
    ensures Gregorian(d) && d.year == y && DayNumber(d) == DayFromYear(y) + dayOfYear
  {
    hide DayFromYear, IsLeap;
    assert DaysBefore(y, 1) == 0;
    var m := MonthFrom(y, dayOfYear, 1);
    LocalDate(y, m, dayOfYear - DaysBefore(y, m) + 1)
  }

  // zoned-time.ts fromEpochDay.
  function FromEpochDay(n: int): (d: LocalDate)
    ensures Gregorian(d) && DayNumber(d) == n
  {
    var y := YearFrom(n, 1970);
    YearStep(y);
    DateInYear(y, n - DayFromYear(y))
  }

  // Date.UTC's reading of a year.
  function CenturyYear(y: int): int { if 0 <= y < 100 then 1900 + y else y }

  // zoned-time.ts toEpochDay: Date.UTC, then setUTCFullYear for the years Date.UTC moved.
  function ToEpochDay(d: LocalDate): int
    requires 1 <= d.month <= 12
  {
    var utc := DayNumber(d.(year := CenturyYear(d.year)));
    if 0 <= d.year < 100 then DayNumber(FromEpochDay(utc).(year := d.year)) else utc
  }

  function DaysInMonth(y: int, m: int): int
    requires 1 <= m <= 12
  {
    MonthLength(CenturyYear(y), m)
  }

  function AddDays(d: LocalDate, days: int): (r: LocalDate)
    requires 1 <= d.month <= 12
    ensures Gregorian(r) && DayNumber(r) == ToEpochDay(d) + days
  {
    FromEpochDay(ToEpochDay(d) + days)
  }

  function CompareLocalDates(a: LocalDate, b: LocalDate): int
    requires 1 <= a.month <= 12 && 1 <= b.month <= 12
  {
    ToEpochDay(a) - ToEpochDay(b)
  }

  // zoned-time.ts isoWeekdayIndex: getUTCDay is (day + 4) modulo 7, Sunday first; 0 is Monday here.
  function IsoWeekdayIndex(d: LocalDate): (i: int)
    requires 1 <= d.month <= 12
    ensures 0 <= i < 7
  {
    ((ToEpochDay(d) + 4) % 7 + 6) % 7
  }

  predicate Before(a: LocalDate, b: LocalDate) {
    a.year < b.year
    || (a.year == b.year && (a.month < b.month || (a.month == b.month && a.day < b.day)))
  }

  lemma {:induction false} YearsAscend(y: int, z: int)
    requires y < z
    ensures DayFromYear(y) + YearLength(y) <= DayFromYear(z)
    decreases z - y
  {
    YearStep(y);
    if y + 1 < z { YearsAscend(y + 1, z); }
  }

  lemma MonthsAscend(y: int, m: int, n: int)
    requires 1 <= m < n <= 13
    ensures DaysBefore(y, m + 1) <= DaysBefore(y, n) <= YearLength(y)
  {}

  // Day numbers order dates exactly as year, month and day do.
  lemma DayNumbersOrderDates(a: LocalDate, b: LocalDate)
    requires Gregorian(a) && Gregorian(b)
    ensures Before(a, b) <==> DayNumber(a) < DayNumber(b)
    ensures a == b <==> DayNumber(a) == DayNumber(b)
  {
    if Before(a, b) { EarlierIsSmaller(a, b); }
    if Before(b, a) { EarlierIsSmaller(b, a); }
  }

  lemma EarlierIsSmaller(a: LocalDate, b: LocalDate)
    requires Gregorian(a) && Gregorian(b) && Before(a, b)
    ensures DayNumber(a) < DayNumber(b)
  {
    MonthsAscend(a.year, a.month, 13);
    if a.year < b.year {
      YearsAscend(a.year, b.year);
    } else if a.month < b.month {
      MonthsAscend(a.year, a.month, b.month);
    }
  }

  // The dates on which the platform's arithmetic is Gregorian without exception: all from 1 March of year 0 on.
  predicate Proper(d: LocalDate) { Gregorian(d) && (d.year >= 1 || (d.year == 0 && d.month >= 3)) }

  const FIRST_PROPER_DAY: int := -719468

  const QUIRK: LocalDate := LocalDate(0, 2, 29)

  lemma ProperDays(d: LocalDate)
    requires Gregorian(d)
    ensures Proper(d) <==> FIRST_PROPER_DAY <= DayNumber(d)
  {
    var first := LocalDate(0, 3, 1);
    assert DayNumber(first) == FIRST_PROPER_DAY;
    DayNumbersOrderDates(d, first);
    DayNumbersOrderDates(first, d);
  }

  lemma CenturyLeap(y: int)
    requires 0 < y < 100
    ensures IsLeap(1900 + y) == IsLeap(y)
  {}

  lemma DateOfDay(d: LocalDate, n: int)
    requires Gregorian(d) && DayNumber(d) == n
    ensures FromEpochDay(n) == d
  {
    DayNumbersOrderDates(FromEpochDay(n), d);
  }

  lemma CorrectedCentury(d: LocalDate)
    requires Gregorian(d) && 0 < d.year < 100
    ensures ToEpochDay(d) == DayNumber(d)
  {
    hide DayFromYear, IsLeap, FromEpochDay;
    CenturyLeap(d.year);
    var moved := d.(year := 1900 + d.year);
    DateOfDay(moved, DayNumber(moved));
  }

  lemma CorrectedYearZero(d: LocalDate)
    requires Gregorian(d) && d.year == 0
    ensures ToEpochDay(d) == DayNumber(d) + (if d == QUIRK then 1 else 0)
  {
    var moved := if d == QUIRK then LocalDate(1900, 3, 1) else d.(year := 1900);
    DateOfDay(moved, DayNumber(d.(year := 1900)));
  }

  // The one Gregorian date that toEpochDay misplaces is 29 February of year 0.
  lemma QuirkIsOneDay(d: LocalDate)
    requires Gregorian(d)
    ensures ToEpochDay(d) == DayNumber(d) + (if d == QUIRK then 1 else 0)
  {
    if 0 < d.year < 100 { CorrectedCentury(d); }
    if d.year == 0 { CorrectedYearZero(d); }
  }

  lemma MonthLengthsAgree(y: int, m: int)
    requires 1 <= m <= 12
    ensures DaysInMonth(y, m) == MonthLength(y, m) <==> !(y == 0 && m == 2)
  {
    if 0 < y < 100 { CenturyLeap(y); }
  }

  // The two conversions undo each other, except at the one date.
  lemma EpochDaysRoundTrip(n: int)
    ensures ToEpochDay(FromEpochDay(n)) == n <==> FromEpochDay(n) != QUIRK
  {
    QuirkIsOneDay(FromEpochDay(n));
  }

  lemma DatesRoundTrip(d: LocalDate)
    requires Gregorian(d)
    ensures FromEpochDay(ToEpochDay(d)) == d <==> d != QUIRK
  {
    QuirkIsOneDay(d);
    DayNumbersOrderDates(FromEpochDay(ToEpochDay(d)), d);
  }

  lemma AddDaysIsAdditive(d: LocalDate, a: int, b: int)
    requires 1 <= d.month <= 12
    ensures AddDays(AddDays(d, a), b) == AddDays(d, a + b) <==> AddDays(d, a) != QUIRK
  {
    QuirkIsOneDay(AddDays(d, a));
    DayNumbersOrderDates(AddDays(AddDays(d, a), b), AddDays(d, a + b));
  }

  // For the dates the recurrence engine is used on, everything is a statement about day numbers.
  lemma ProperEpoch(d: LocalDate)
    requires Proper(d)
    ensures ToEpochDay(d) == DayNumber(d) >= FIRST_PROPER_DAY && FromEpochDay(ToEpochDay(d)) == d
  {
    QuirkIsOneDay(d);
    DatesRoundTrip(d);
    ProperDays(d);
  }

  lemma EpochProper(n: int)
    requires n >= FIRST_PROPER_DAY
    ensures Proper(FromEpochDay(n)) && ToEpochDay(FromEpochDay(n)) == n
  {
    ProperDays(FromEpochDay(n));
    QuirkIsOneDay(FromEpochDay(n));
  }

  lemma CompareOrdersDates(a: LocalDate, b: LocalDate)
    requires Proper(a) && Proper(b)
    ensures CompareLocalDates(a, b) < 0 <==> Before(a, b)
    ensures CompareLocalDates(a, b) == 0 <==> a == b
  {
    ProperEpoch(a);
    ProperEpoch(b);
    DayNumbersOrderDates(a, b);
  }

  predicate TimeOfDay(l: LocalDateTime) { 0 <= l.hour < 24 && 0 <= l.minute < 60 && 0 <= l.second < 60 }

  function SecondOfDay(l: LocalDateTime): int { 3600 * l.hour + 60 * l.minute + l.second }

  // zoned-time.ts localAsUtcMs, in seconds.
  function LocalAsUtc(l: LocalDateTime): int
    requires 1 <= l.date.month <= 12
  {
    86400 * ToEpochDay(l.date) + SecondOfDay(l)
  }

  function CompareLocalDateTimes(a: LocalDateTime, b: LocalDateTime): int
    requires 1 <= a.date.month <= 12 && 1 <= b.date.month <= 12
  {
    LocalAsUtc(a) - LocalAsUtc(b)
  }

  lemma Clock(t: int)
    requires 0 <= t < 86400
    ensures 0 <= t / 3600 < 24 && 3600 * (t / 3600) + 60 * (t / 60 % 60) + t % 60 == t
  {
    RemainderIs(t, 3600, t / 60 / 60, 60 * (t / 60 % 60) + t % 60);
  }

  // The wall-clock fields of a reading counted in seconds.
  function FromLocalSeconds(s: int): (l: LocalDateTime)
    ensures Gregorian(l.date) && TimeOfDay(l) && 86400 * DayNumber(l.date) + SecondOfDay(l) == s
  {
    hide DayNumber, FromEpochDay, MonthLength;
    var t := s % 86400;
    Clock(t);
    LocalDateTime(FromEpochDay(s / 86400), t / 3600, t / 60 % 60, t % 60)
  }

  lemma ClocksDiffer(a: LocalDateTime, b: LocalDateTime)
    requires TimeOfDay(a) && TimeOfDay(b) && SecondOfDay(a) == SecondOfDay(b)
    ensures a.hour == b.hour && a.minute == b.minute && a.second == b.second
  {
    Multiples(3600, a.hour - b.hour);
    Multiples(60, a.minute - b.minute);
  }

  lemma SecondIsInDay(l: LocalDateTime)
    requires TimeOfDay(l)
    ensures 0 <= SecondOfDay(l) < 86400
  {}

  lemma ReadingsRoundTrip(l: LocalDateTime, s: int)
    requires Proper(l.date) && TimeOfDay(l)
    ensures FromLocalSeconds(s) == l <==> s == LocalAsUtc(l)
  {
    hide DayNumber, MonthLength, ToEpochDay, FromLocalSeconds, SecondOfDay, TimeOfDay;
    ProperEpoch(l.date);
    var r := FromLocalSeconds(s);
    if s == LocalAsUtc(l) {
      SecondIsInDay(l);
      SecondIsInDay(r);
      Multiples(86400, DayNumber(r.date) - DayNumber(l.date));
      assert DayNumber(r.date) == DayNumber(l.date);
      DayNumbersOrderDates(r.date, l.date);
      ClocksDiffer(r, l);
    }
  }
}
