// One period of a recurrence: the candidate dates of packages/kernel/src/recurrence/expand.ts, and what they are.
module Periods {
  import opened Prelude
  import opened CivilDate
  import opened Rules

  // --- The source's functions -------------------------------------------------------------------------------------

  function WeekdayOf(d: LocalDate): Weekday
    requires 1 <= d.month <= 12
  {
    WEEKDAYS[IsoWeekdayIndex(d)]
  }

  predicate Months(dates: seq<LocalDate>) { forall d :: d in dates ==> 1 <= d.month <= 12 }

  function MonthDates(y: int, m: int): (r: seq<LocalDate>)
    requires 1 <= m <= 12
    ensures Months(r)
  {
    seq(DaysInMonth(y, m), i => LocalDate(y, m, i + 1))
  }

  function YearDatesUpTo(y: int, months: nat): (r: seq<LocalDate>)
    requires months <= 12
    ensures Months(r)
  {
    if months == 0 then [] else YearDatesUpTo(y, months - 1) + MonthDates(y, months)
  }

  function YearDates(y: int): (r: seq<LocalDate>)
    ensures Months(r)
  {
    YearDatesUpTo(y, 12)
  }

  // BYMONTHDAY=-1 is the month's last day; a day the month lacks is none.
  function ResolveMonthDay(y: int, m: int, v: int): Option<LocalDate>
    requires 1 <= m <= 12
  {
    var length := DaysInMonth(y, m);
    var day := if v > 0 then v else length + v + 1;
    if 1 <= day <= length then Some(LocalDate(y, m, day)) else None
  }

  function OnWeekday(scope: seq<LocalDate>, w: Weekday): (r: seq<LocalDate>)
    requires Months(scope)
    ensures Months(r)
  {
    if scope == [] then []
    else
      var last := scope[|scope| - 1];
      OnWeekday(scope[..|scope| - 1], w) + (if WeekdayOf(last) == w then [last] else [])
  }

  function Picked(scope: seq<LocalDate>, b: ByDay): (r: seq<LocalDate>)
    requires Months(scope)
    ensures Months(r)
  {
    var matching := OnWeekday(scope, b.weekday);
    match b.ordinal
    case None => matching
    case Some(o) =>
      var i := if o > 0 then o - 1 else |matching| + o;
      if 0 <= i < |matching| then [matching[i]] else []
  }

  function ExpandByDay(scope: seq<LocalDate>, byDay: seq<ByDay>): (r: seq<LocalDate>)
    requires Months(scope)
    ensures Months(r)
    ensures forall d :: d in r <==> exists b :: b in byDay && d in Picked(scope, b)
  {
    if byDay == [] then []
    else
      assert byDay == [byDay[0]] + byDay[1..];
      Picked(scope, byDay[0]) + ExpandByDay(scope, byDay[1..])
  }

  // BYDAY as a limit.
  predicate MatchesByDay(d: LocalDate, byDay: seq<ByDay>)
    requires 1 <= d.month <= 12
  {
    byDay == []
    || exists b :: b in byDay
         && if b.ordinal.None? then WeekdayOf(d) == b.weekday
            else exists e :: e in ExpandByDay(MonthDates(d.year, d.month), [b]) && CompareLocalDates(e, d) == 0
  }

  predicate MatchesByMonthDay(d: LocalDate, byMonthDay: seq<int>)
    requires 1 <= d.month <= 12
  {
    byMonthDay == []
    || exists v :: v in byMonthDay
         && ResolveMonthDay(d.year, d.month, v).Some?
         && ResolveMonthDay(d.year, d.month, v).value.day == d.day
  }

  predicate MatchesByMonth(d: LocalDate, byMonth: seq<int>) { byMonth == [] || d.month in byMonth }

  function StartOfWeek(d: LocalDate, wkst: Weekday): (w: LocalDate)
    requires 1 <= d.month <= 12
    ensures Gregorian(w)
  {
    AddDays(d, -((IsoWeekdayIndex(d) - WeekdayIndex(wkst) + 7) % 7))
  }

  // JavaScript's % and Dafny's agree here: the index is never negative for the years in use.
  function AddMonths(y: int, m: int, months: int): (int, int) {
    var index := y * 12 + (m - 1) + months;
    (index / 12, index % 12 + 1)
  }

  function KeepMonthDays(y: int, m: int, values: seq<int>, byDay: seq<ByDay>): (r: seq<LocalDate>)
    requires 1 <= m <= 12
    ensures Months(r)
    ensures forall d :: d in r <==> d.month == m && MatchesByDay(d, byDay)
                                    && exists v :: v in values && ResolveMonthDay(y, m, v) == Some(d)
  {
    if values == [] then []
    else
      assert values == [values[0]] + values[1..];
      var d := ResolveMonthDay(y, m, values[0]);
      (if d.Some? && MatchesByDay(d.value, byDay) then [d.value] else []) + KeepMonthDays(y, m, values[1..], byDay)
  }

  function WeekDates(weekStart: LocalDate): (r: seq<LocalDate>)
    requires 1 <= weekStart.month <= 12
    ensures Months(r)
  {
    seq(7, i => AddDays(weekStart, i))
  }

  function KeepWeekdays(week: seq<LocalDate>, weekdays: seq<Weekday>, byMonth: seq<int>): (r: seq<LocalDate>)
    requires Months(week)
    ensures Months(r)
    ensures forall d :: d in r <==> d in week && WeekdayOf(d) in weekdays && MatchesByMonth(d, byMonth)
  {
    if week == [] then []
    else
      assert week == [week[0]] + week[1..];
      (if WeekdayOf(week[0]) in weekdays && MatchesByMonth(week[0], byMonth) then [week[0]] else [])
      + KeepWeekdays(week[1..], weekdays, byMonth)
  }

  function WeekdaysOf(byDay: seq<ByDay>): seq<Weekday> { seq(|byDay|, i requires 0 <= i < |byDay| => byDay[i].weekday) }

  // The month's or the year's same day as DTSTART's, when it has one.
  function SameDay(y: int, m: int, day: int): (r: seq<LocalDate>)
    requires 1 <= m <= 12
    ensures Months(r)
  {
    var same := ResolveMonthDay(y, m, day);
    if same.Some? && same.value.day == day then [same.value] else []
  }

  const ALL_MONTHS: seq<int> := [1, 2, 3, 4, 5, 6, 7, 8, 9, 10, 11, 12]

  // The three ways a month yields dates, shared by MONTHLY and by YEARLY over its months.
  function DatesInMonth(r: Rule, start: LocalDate, y: int, m: int): (dates: seq<LocalDate>)
    requires 1 <= m <= 12
    ensures Months(dates)
  {
    if r.byMonthDay != [] then KeepMonthDays(y, m, r.byMonthDay, r.byDay)
    else if r.byDay != [] then ExpandByDay(MonthDates(y, m), r.byDay)
    else SameDay(y, m, start.day)
  }

  function DatesInMonths(r: Rule, start: LocalDate, y: int, months: seq<int>): (dates: seq<LocalDate>)
    requires forall i :: 0 <= i < |months| ==> 1 <= months[i] <= 12
    ensures Months(dates)
    ensures forall d :: d in dates <==> exists i :: 0 <= i < |months| && d in DatesInMonth(r, start, y, months[i])
  {
    if months == [] then []
    else
      assert months == [months[0]] + months[1..];
      DatesInMonth(r, start, y, months[0]) + DatesInMonths(r, start, y, months[1..])
  }

  // The dates of period k before they are sorted, one function per frequency.
  function DailyDates(r: Rule, start: LocalDate, step: int): (dates: seq<LocalDate>)
    requires 1 <= start.month <= 12
    ensures Months(dates)
  {
    var d := AddDays(start, step);
    if MatchesByMonth(d, r.byMonth) && MatchesByMonthDay(d, r.byMonthDay) && MatchesByDay(d, r.byDay) then [d] else []
  }

  function WeeklyDates(r: Rule, start: LocalDate, step: int): (dates: seq<LocalDate>)
    requires 1 <= start.month <= 12
    ensures Months(dates)
  {
    var weekStart := AddDays(StartOfWeek(start, r.wkst), step * 7);
    KeepWeekdays(WeekDates(weekStart),
                 if r.byDay != [] then WeekdaysOf(r.byDay) else [WeekdayOf(start)],
                 r.byMonth)
  }

  function MonthlyDates(r: Rule, start: LocalDate, step: int): (dates: seq<LocalDate>)
    ensures Months(dates)
  {
    var (y, m) := AddMonths(start.year, start.month, step);
    if MatchesByMonth(LocalDate(y, m, 1), r.byMonth) then DatesInMonth(r, start, y, m) else []
  }

  function YearlyDates(r: Rule, start: LocalDate, step: int): (dates: seq<LocalDate>)
    requires WellFormed(r) && 1 <= start.month <= 12
    ensures Months(dates)
  {
    var y := start.year + step;
    if r.byMonth != [] then DatesInMonths(r, start, y, r.byMonth)
    else if r.byMonthDay != [] then DatesInMonths(r, start, y, ALL_MONTHS)
    else if r.byDay != [] then ExpandByDay(YearDates(y), r.byDay)
    else DatesInMonths(r, start, y, [start.month])
  }

  function UnsortedDates(r: Rule, start: LocalDate, k: int): (dates: seq<LocalDate>)
    requires WellFormed(r) && 1 <= start.month <= 12
    ensures Months(dates)
  {
    var step := k * r.interval;
    match r.freq
    case Daily => DailyDates(r, start, step)
    case Weekly => WeeklyDates(r, start, step)
    case Monthly => MonthlyDates(r, start, step)
    case Yearly => YearlyDates(r, start, step)
  }

  // The Map keyed by epoch day, and its sort.
  function Insert(sorted: seq<LocalDate>, d: LocalDate): (r: seq<LocalDate>)
    requires Months(sorted) && 1 <= d.month <= 12
    ensures Months(r)
  {
    if sorted == [] || ToEpochDay(d) < ToEpochDay(sorted[0]) then [d] + sorted
    else if ToEpochDay(d) == ToEpochDay(sorted[0]) then [d] + sorted[1..]
    else [sorted[0]] + Insert(sorted[1..], d)
  }

  function SortUnique(dates: seq<LocalDate>): (r: seq<LocalDate>)
    requires Months(dates)
    ensures Months(r)
  {
    if dates == [] then [] else Insert(SortUnique(dates[..|dates| - 1]), dates[|dates| - 1])
  }

  // expand.ts candidatesForPeriod.
  function CandidatesForPeriod(r: Rule, start: LocalDate, k: int): (dates: seq<LocalDate>)
    requires WellFormed(r) && 1 <= start.month <= 12
    ensures Months(dates)
  {
    SortUnique(UnsortedDates(r, start, k))
  }

  // Math.floor is Dafny's division for a positive divisor.
  function PeriodsBetween(r: Rule, start: LocalDate, d: LocalDate): int
    requires r.interval >= 1 && 1 <= start.month <= 12 && 1 <= d.month <= 12
  {
    match r.freq
    case Daily => (ToEpochDay(d) - ToEpochDay(start)) / r.interval
    case Weekly =>
      (ToEpochDay(StartOfWeek(d, r.wkst)) - ToEpochDay(StartOfWeek(start, r.wkst))) / (7 * r.interval)
    case Monthly => (d.year * 12 + d.month - (start.year * 12 + start.month)) / r.interval
    case Yearly => (d.year - start.year) / r.interval
  }

  function PeriodStart(r: Rule, start: LocalDate, k: int): (d: LocalDate)
    requires 1 <= start.month <= 12
    ensures 1 <= d.month <= 12
  {
    var step := k * r.interval;
    match r.freq
    case Daily => AddDays(start, step)
    case Weekly => AddDays(StartOfWeek(start, r.wkst), step * 7)
    case Monthly => var (y, m) := AddMonths(start.year, start.month, step); LocalDate(y, m, 1)
    case Yearly => LocalDate(start.year + step, 1, 1)
  }
}
