// The candidates of period k are exactly the selected dates of unit k of the series, in date order.
module PeriodExact {
  import opened Prelude
  import opened CivilDate
  import opened Rules
  import opened Periods
  import opened RecurrenceSet

  predicate Start(d: LocalDate) { Gregorian(d) && d.year >= 1 }

  ghost predicate InPeriod(r: Rule, start: LocalDate, step: int, d: LocalDate)
    requires Start(start)
  {
    Proper(d) && UnitOf(r, DayNumber(d)) == UnitOf(r, DayNumber(start)) + step && Selected(r, start, d)
  }

  lemma MonthScope(y: int, m: int) returns (lo: int)
    requires y >= 1 && 1 <= m <= 12
    ensures lo == DayNumber(LocalDate(y, m, 1)) && Consecutive(MonthDates(y, m), lo)
    ensures |MonthDates(y, m)| == MonthLength(y, m)
    ensures forall i :: 0 <= i < |MonthDates(y, m)| ==> MonthDates(y, m)[i] == LocalDate(y, m, i + 1)
  {
    hide DaysBefore, DayFromYear, FromEpochDay, DaysInMonth;
    MonthLengthsAgree(y, m);
    lo := DayNumber(LocalDate(y, m, 1));
    FirstIsProper(LocalDate(y, m, 1));
    ProperDays(LocalDate(y, m, 1));
    forall i | 0 <= i < |MonthDates(y, m)| ensures MonthDates(y, m)[i] == FromEpochDay(lo + i) {
      DateOfDay(LocalDate(y, m, i + 1), lo + i);
    }
  }

  lemma MonthPosition(y: int, m: int, d: LocalDate)
    requires y >= 1 && 1 <= m <= 12
    ensures forall i :: 0 <= i < |MonthDates(y, m)| && d == MonthDates(y, m)[i] ==>
              Gregorian(d) && d.year == y && d.month == m && d.day - 1 == i
                && DayNumber(d) == DayNumber(LocalDate(y, m, 1)) + i
    ensures Gregorian(d) && d.year == y && d.month == m ==>
              0 <= d.day - 1 < |MonthDates(y, m)| && MonthDates(y, m)[d.day - 1] == d
  {
    MonthLengthsAgree(y, m);
  }

  lemma YearSoFar(y: int, months: int)
    requires y >= 1 && 1 <= months <= 12
    ensures DayNumber(LocalDate(y, months, 1)) == DayFromYear(y) + DaysBefore(y, months)
    ensures DaysBefore(y, months + 1) == DaysBefore(y, months) + MonthLength(y, months)
    ensures DaysBefore(y, 1) == 0 && DaysBefore(y, 13) == YearLength(y)
    ensures DayFromYear(y) >= FIRST_PROPER_DAY
  {
    ProperDays(LocalDate(y, 1, 1));
  }

  lemma {:induction false} YearScope(y: int, months: nat) returns (lo: int)
    requires y >= 1 && months <= 12
    ensures lo == DayFromYear(y) && Consecutive(YearDatesUpTo(y, months), lo)
    ensures |YearDatesUpTo(y, months)| == DaysBefore(y, months + 1)
  {
    hide DayFromYear, DayNumber, DaysBefore, MonthLength, MonthDates, FromEpochDay;
    lo := DayFromYear(y);
    YearSoFar(y, if months == 0 then 1 else months);
    if months > 0 {
      var _ := YearScope(y, months - 1);
      var _ := MonthScope(y, months);
    }
  }

  lemma PickedInMonth(y: int, m: int, b: ByDay, d: LocalDate)
    requires y >= 1 && 1 <= m <= 12 && (b.ordinal.Some? ==> b.ordinal.value != 0)
    ensures d in Picked(MonthDates(y, m), b) <==> Gregorian(d) && d.year == y && d.month == m && NthOfMonth(d, b)
  {
    hide Picked, IsNth, WeekdayOfDay, Gregorian, DayNumber, MonthLength, MonthDates, Consecutive, Months;
    var lo := MonthScope(y, m);
    MonthPosition(y, m, d);
    PickedIsNth(MonthDates(y, m), lo, b, d);
  }

  lemma YearPosition(y: int, d: LocalDate)
    requires y >= 1
    ensures |YearDates(y)| == YearLength(y) && Consecutive(YearDates(y), DayFromYear(y))
    ensures forall i :: 0 <= i < |YearDates(y)| && d == YearDates(y)[i] ==>
              Gregorian(d) && d.year == y && DayNumber(d) == DayFromYear(y) + i
    ensures Gregorian(d) && d.year == y ==>
              var i := DayNumber(d) - DayFromYear(y); 0 <= i < |YearDates(y)| && YearDates(y)[i] == d
  {
    hide DayFromYear, DayNumber, DaysBefore, MonthLength, FromEpochDay, YearDatesUpTo, YearLength;
    YearSoFar(y, 12);
    var lo := YearScope(y, 12);
    if Gregorian(d) && d.year == y {
      DayOfItsYear(d);
      DateOfDay(d, DayNumber(d));
    }
    forall i | 0 <= i < |YearDates(y)| && d == YearDates(y)[i]
      ensures Gregorian(d) && d.year == y && DayNumber(d) == lo + i
    {
      InYear(d, y);
    }
  }

  lemma PickedInYear(y: int, b: ByDay, d: LocalDate)
    requires y >= 1 && (b.ordinal.Some? ==> b.ordinal.value != 0)
    ensures d in Picked(YearDates(y), b) <==> Gregorian(d) && d.year == y && NthOfYear(d, b)
  {
    hide Picked, IsNth, WeekdayOfDay, Gregorian, DayNumber, DayFromYear, YearDates, YearLength, Consecutive, Months;
    YearPosition(y, d);
    PickedIsNth(YearDates(y), DayFromYear(y), b, d);
  }

  lemma DayOfItsYear(d: LocalDate)
    requires Gregorian(d)
    ensures 0 <= DayNumber(d) - DayFromYear(d.year) < YearLength(d.year)
  {
    MonthsAscend(d.year, d.month, 13);
  }

  lemma InYear(d: LocalDate, y: int)
    requires Gregorian(d) && DayFromYear(y) <= DayNumber(d) < DayFromYear(y) + YearLength(y)
    ensures d.year == y
  {
    DayOfItsYear(d);
    if d.year < y { YearsAscend(d.year, y); }
    if d.year > y { YearsAscend(y, d.year); }
  }

  lemma ResolvesTo(y: int, m: int, v: int, d: LocalDate)
    requires y >= 1 && 1 <= m <= 12
    ensures ResolveMonthDay(y, m, v) == Some(d) <==> Gregorian(d) && d.year == y && d.month == m && OnMonthDay(d, v)
  {
    MonthLengthsAgree(y, m);
  }

  lemma MonthDayLimits(r: Rule, d: LocalDate)
    requires Start(d)
    ensures MatchesByMonthDay(d, r.byMonthDay) <==> MonthDayLimit(r, d)
  {
    forall v ensures ResolveMonthDay(d.year, d.month, v).Some? && ResolveMonthDay(d.year, d.month, v).value.day == d.day
                     <==> OnMonthDay(d, v)
    {
      ResolvesTo(d.year, d.month, v, d);
    }
  }

  lemma DayLimits(r: Rule, d: LocalDate)
    requires WellFormed(r) && Start(d)
    ensures MatchesByDay(d, r.byDay) <==> DayLimit(r, d)
  {
    hide Picked, IsNth, WeekdayOfDay, WeekdayOf, MonthDates;
    var scope := MonthDates(d.year, d.month);
    WeekdayAgrees(d);
    forall b | b in r.byDay
      ensures (if b.ordinal.None? then WeekdayOf(d) == b.weekday
               else exists e :: e in ExpandByDay(scope, [b]) && CompareLocalDates(e, d) == 0) <==> NthOfMonth(d, b)
    {
      DayLimitOne(b, d);
    }
  }

  lemma DayLimitOne(b: ByDay, d: LocalDate)
    requires Start(d) && (b.ordinal.Some? ==> b.ordinal.value != 0)
    ensures (if b.ordinal.None? then WeekdayOf(d) == b.weekday
             else exists e :: e in ExpandByDay(MonthDates(d.year, d.month), [b]) && CompareLocalDates(e, d) == 0)
            <==> NthOfMonth(d, b)
  {
    hide Picked, WeekdayOfDay, WeekdayOf, MonthDates, ExpandByDay, CompareLocalDates;
    var scope := MonthDates(d.year, d.month);
    WeekdayAgrees(d);
    forall e ensures e in ExpandByDay(scope, [b]) <==> e in Picked(scope, b) {
      assert b in [b];
    }
    PickedInMonth(d.year, d.month, b, d);
    CompareOrdersDates(d, d);
    forall e | e in Picked(scope, b) && CompareLocalDates(e, d) == 0 ensures e == d {
      PickedInMonth(d.year, d.month, b, e);
      CompareOrdersDates(e, d);
    }
  }

  lemma MonthExact(r: Rule, start: LocalDate, y: int, m: int, d: LocalDate)
    requires WellFormed(r) && y >= 1 && 1 <= m <= 12
    ensures d in DatesInMonth(r, start, y, m) <==>
            Gregorian(d) && d.year == y && d.month == m && SelectedInMonth(r, start, d)
  {
    hide Picked, IsNth, MonthDates, ResolveMonthDay, MatchesByDay, DayLimit;
    var inMonth := Gregorian(d) && d.year == y && d.month == m;
    if inMonth { DayLimits(r, d); }
    forall v ensures ResolveMonthDay(y, m, v) == Some(d) <==> inMonth && OnMonthDay(d, v) { ResolvesTo(y, m, v, d); }
    if r.byMonthDay == [] && r.byDay != [] {
      forall b | b in r.byDay
        ensures d in Picked(MonthDates(y, m), b) <==> inMonth && NthOfMonth(d, b)
      {
        PickedInMonth(y, m, b, d);
      }
      if inMonth { assert DayLimit(r, d) <==> exists b :: b in r.byDay && NthOfMonth(d, b) by { DayLimitMeans(r, d); } }
    } else if r.byMonthDay == [] {
      ResolvesTo(y, m, start.day, d);
      MonthLengthsAgree(y, m);
    }
  }

  lemma DayLimitMeans(r: Rule, d: LocalDate)
    requires Gregorian(d)
    ensures DayLimit(r, d) <==> r.byDay == [] || exists b :: b in r.byDay && NthOfMonth(d, b)
  {}

  // --- One lemma per frequency -------------------------------------------------------------------------------------

  lemma ShiftedDay(start: LocalDate, days: int) returns (d: LocalDate)
    requires Start(start) && days >= -6
    ensures d == AddDays(start, days) && Proper(d) && DayNumber(d) == DayNumber(start) + days == ToEpochDay(d)
  {
    d := AddDays(start, days);
    ProperEpoch(start);
    var first := LocalDate(1, 1, 1);
    DayNumbersOrderDates(start, first);
    ProperDays(d);
    ProperEpoch(d);
  }

  lemma ProperSameDay(d: LocalDate, e: LocalDate)
    requires Gregorian(d) && Gregorian(e) && DayNumber(d) == DayNumber(e)
    ensures d == e
  {
    DayNumbersOrderDates(d, e);
  }

  lemma DailyExact(r: Rule, start: LocalDate, step: int, d: LocalDate)
    requires WellFormed(r) && r.freq.Daily? && Start(start) && step >= 0
    ensures d in DailyDates(r, start, step) <==> InPeriod(r, start, step, d)
  {
    hide DayNumber, ToEpochDay, AddDays, MatchesByDay, MatchesByMonthDay, DayLimit, MonthDayLimit, MonthLength;
    var e := ShiftedDay(start, step);
    LaterStart(start, e);
    DayLimits(r, e);
    MonthDayLimits(r, e);
    if Proper(d) && DayNumber(d) == DayNumber(e) { ProperSameDay(d, e); }
  }

  lemma LaterStart(start: LocalDate, d: LocalDate)
    requires Start(start) && Gregorian(d) && DayNumber(start) <= DayNumber(d)
    ensures Start(d)
  {
    DayNumbersOrderDates(d, start);
  }

  // The start of a date's week is the one WKST day among the seven days that end at the date.
  lemma StartOfWeekIs(d: LocalDate, wkst: Weekday) returns (w: LocalDate)
    requires Proper(d) && DayNumber(d) >= FIRST_PROPER_DAY + 6
    ensures w == StartOfWeek(d, wkst) && Proper(w) && ToEpochDay(w) == DayNumber(w)
    ensures DayNumber(d) - 6 <= DayNumber(w) <= DayNumber(d)
    ensures WeekdayOfDay(DayNumber(w)) == wkst
    ensures DayNumber(w) == 7 * ((DayNumber(d) + 3 - WeekdayIndex(wkst)) / 7) - 3 + WeekdayIndex(wkst)
    ensures forall n :: DayNumber(d) - 6 <= n <= DayNumber(d) && WeekdayOfDay(n) == wkst ==> n == DayNumber(w)
  {
    hide DayNumber, ToEpochDay, MonthLength, WeekdayOfDay, StartOfWeek, FromEpochDay, WeekdayIndex;
    w := StartOfWeek(d, wkst);
    ProperEpoch(d);
    StartOfWeekDay(d, wkst);
    ProperDays(w);
    ProperEpoch(w);
    OnlyOneInSeven(DayNumber(d), DayNumber(w), wkst);
  }

  lemma StartOfWeekDay(d: LocalDate, wkst: Weekday)
    requires 1 <= d.month <= 12
    ensures var n, x := ToEpochDay(d), WeekdayIndex(wkst);
            var w := StartOfWeek(d, wkst);
            && Gregorian(w) && DayNumber(w) == 7 * ((n + 3 - x) / 7) - 3 + x
            && (DayNumber(w) + 3) % 7 == x && n - 6 <= DayNumber(w) <= n
  {
    hide DayNumber, ToEpochDay, Gregorian, WeekdayIndex, FromEpochDay;
    WeekOffset(ToEpochDay(d), WeekdayIndex(wkst));
  }

  lemma OnlyOneInSeven(e: int, w: int, wkst: Weekday)
    requires (w + 3) % 7 == WeekdayIndex(wkst) && e - 6 <= w <= e
    ensures WeekdayOfDay(w) == wkst
    ensures forall n :: e - 6 <= n <= e && WeekdayOfDay(n) == wkst ==> n == w
  {
    forall n | e - 6 <= n <= e && WeekdayOfDay(n) == wkst ensures n == w {
      WeekdayIndexOf((n + 3) % 7);
      SameResidue(n, w);
    }
  }

  lemma SameResidue(a: int, b: int)
    requires (a + 3) % 7 == (b + 3) % 7 && -7 < a - b < 7
    ensures a == b
  {
    assert a - b == 7 * ((a + 3) / 7 - (b + 3) / 7);
  }

  lemma WeekOffset(e: int, x: int)
    requires 0 <= x < 7
    ensures var w := e - ((((e + 4) % 7 + 6) % 7 - x + 7) % 7);
            w == 7 * ((e + 3 - x) / 7) - 3 + x && (w + 3) % 7 == x && e - 6 <= w <= e
  {
    Shift7(e);
    var q, s := (e + 3) / 7, (e + 3) % 7;
    if s >= x {
      RemainderIs(s - x + 7, 7, 1, s - x);
      RemainderIs(e + 3 - x, 7, q, s - x);
      RemainderIs(7 * q + x, 7, q, x);
    } else {
      RemainderIs(s - x + 7, 7, 0, s - x + 7);
      RemainderIs(e + 3 - x, 7, q - 1, s - x + 7);
      RemainderIs(7 * (q - 1) + x, 7, q - 1, x);
    }
  }

  lemma UsableIsLate(d: LocalDate)
    requires Start(d)
    ensures Proper(d) && DayNumber(d) >= FIRST_PROPER_DAY + 20
  {
    assert DayNumber(LocalDate(1, 1, 1)) >= FIRST_PROPER_DAY + 20;
    DayNumbersOrderDates(d, LocalDate(1, 1, 1));
  }

  // The week that begins on day `lo`, as the source lays it out.
  lemma WeekScope(weekStart: LocalDate, d: LocalDate)
    requires Proper(weekStart)
    ensures d in WeekDates(weekStart) <==> Proper(d) && DayNumber(weekStart) <= DayNumber(d) < DayNumber(weekStart) + 7
  {
    ProperEpoch(weekStart);
    var week := WeekDates(weekStart);
    forall i | 0 <= i < 7 ensures Proper(week[i]) && DayNumber(week[i]) == DayNumber(weekStart) + i {
      ProperDays(week[i]);
    }
    if Proper(d) && DayNumber(weekStart) <= DayNumber(d) < DayNumber(weekStart) + 7 {
      ProperSameDay(d, week[DayNumber(d) - DayNumber(weekStart)]);
    }
  }

  lemma WeeklyExact(r: Rule, start: LocalDate, step: int, d: LocalDate)
    requires WellFormed(r) && r.freq.Weekly? && Start(start) && step >= 0
    ensures d in WeeklyDates(r, start, step) <==> InPeriod(r, start, step, d)
  {
    hide DayNumber, ToEpochDay, WeekdayOf, WeekdayOfDay, StartOfWeek, WeekDates, KeepWeekdays, MonthLength,
         FromEpochDay, WeekdayIndex, UntilAllowed, WeekdaysOf;
    UsableIsLate(start);
    var w := StartOfWeekIs(start, r.wkst);
    ProperDays(AddDays(w, 7 * step));
    WeekScope(AddDays(w, 7 * step), d);
    WeekdayAgrees(start);
    if Proper(d) { WeekdayAgrees(d); }
    forall v ensures v in WeekdaysOf(r.byDay) <==> exists b :: b in r.byDay && b.weekday == v {
      WeekdaysListed(r.byDay, v);
    }
  }

  lemma WeekdaysListed(byDay: seq<ByDay>, w: Weekday)
    ensures w in WeekdaysOf(byDay) <==> exists b :: b in byDay && b.weekday == w
  {
    forall i | 0 <= i < |byDay| ensures byDay[i].weekday in WeekdaysOf(byDay) {
      assert WeekdaysOf(byDay)[i] == byDay[i].weekday;
    }
  }

  lemma MonthIndex(start: LocalDate, step: int)
    requires Start(start) && step >= 0
    ensures var (y, m) := AddMonths(start.year, start.month, step);
            y >= start.year && 1 <= m <= 12 && 12 * y + m == 12 * start.year + start.month + step
  {}

  lemma UnitOfDate(r: Rule, d: LocalDate)
    requires Gregorian(d)
    ensures r.freq.Monthly? ==> UnitOf(r, DayNumber(d)) == 12 * d.year + d.month
    ensures r.freq.Yearly? ==> UnitOf(r, DayNumber(d)) == d.year
  {
    DateOfDay(d, DayNumber(d));
  }

  lemma MonthlyExact(r: Rule, start: LocalDate, step: int, d: LocalDate)
    requires WellFormed(r) && r.freq.Monthly? && Start(start) && step >= 0
    ensures d in MonthlyDates(r, start, step) <==> InPeriod(r, start, step, d)
  {
    hide DayNumber, DatesInMonth, SelectedInMonth, AddMonths, MonthLength, UnitOf;
    MonthIndex(start, step);
    var (y, m) := AddMonths(start.year, start.month, step);
    MonthExact(r, start, y, m, d);
    UnitOfDate(r, start);
    if Gregorian(d) { UnitOfDate(r, d); }
  }

  lemma YearlyExact(r: Rule, start: LocalDate, step: int, d: LocalDate)
    requires WellFormed(r) && r.freq.Yearly? && Start(start) && step >= 0
    ensures d in YearlyDates(r, start, step) <==> InPeriod(r, start, step, d)
  {
    hide DayNumber, DatesInMonth, SelectedInMonth, MonthLength, UnitOf, Picked, NthOfYear, YearDates;
    var y := start.year + step;
    UnitOfDate(r, start);
    if Gregorian(d) { UnitOfDate(r, d); }
    if r.byMonth != [] {
      InMonthsExact(r, start, y, r.byMonth, d);
    } else if r.byMonthDay != [] {
      InMonthsExact(r, start, y, ALL_MONTHS, d);
      if Gregorian(d) { assert ALL_MONTHS[d.month - 1] == d.month; }
    } else if r.byDay != [] {
      forall b | b in r.byDay
        ensures d in Picked(YearDates(y), b) <==> Gregorian(d) && d.year == y && NthOfYear(d, b)
      {
        PickedInYear(y, b, d);
      }
    } else {
      InMonthsExact(r, start, y, [start.month], d);
      SameDayOnly(r, start, d);
    }
  }

  lemma SameDayOnly(r: Rule, start: LocalDate, d: LocalDate)
    requires r.byDay == [] && r.byMonthDay == []
    ensures Gregorian(d) ==> (SelectedInMonth(r, start, d) <==> d.day == start.day)
  {}

  lemma InMonthsExact(r: Rule, start: LocalDate, y: int, months: seq<int>, d: LocalDate)
    requires WellFormed(r) && y >= 1 && forall i :: 0 <= i < |months| ==> 1 <= months[i] <= 12
    ensures d in DatesInMonths(r, start, y, months) <==>
            Gregorian(d) && d.year == y && d.month in months && SelectedInMonth(r, start, d)
  {
    hide DatesInMonth, SelectedInMonth, MonthLength;
    forall i | 0 <= i < |months|
      ensures d in DatesInMonth(r, start, y, months[i]) <==>
              Gregorian(d) && d.year == y && d.month == months[i] && SelectedInMonth(r, start, d)
    {
      MonthExact(r, start, y, months[i], d);
    }
  }

  lemma UnsortedExact(r: Rule, start: LocalDate, k: int, d: LocalDate)
    requires WellFormed(r) && Start(start) && k >= 0
    ensures d in UnsortedDates(r, start, k) <==> InPeriod(r, start, k * r.interval, d)
  {
    hide InPeriod, DailyDates, WeeklyDates, MonthlyDates, YearlyDates;
    match r.freq
    case Daily => DailyExact(r, start, k * r.interval, d);
    case Weekly => WeeklyExact(r, start, k * r.interval, d);
    case Monthly => MonthlyExact(r, start, k * r.interval, d);
    case Yearly => YearlyExact(r, start, k * r.interval, d);
  }

  // --- Sorting -----------------------------------------------------------------------------------------------------

  predicate Ascending(s: seq<LocalDate>)
    requires Months(s)
  {
    forall i, j :: 0 <= i < j < |s| ==> ToEpochDay(s[i]) < ToEpochDay(s[j])
  }

  ghost predicate AllProper(s: seq<LocalDate>) { forall i :: 0 <= i < |s| ==> Proper(s[i]) }

  lemma {:induction false} InsertKeepsOrder(s: seq<LocalDate>, d: LocalDate)
    requires AllProper(s) && Ascending(s) && Proper(d)
    ensures AllProper(Insert(s, d)) && Ascending(Insert(s, d))
    ensures forall x :: x in Insert(s, d) <==> x in s || x == d
  {
    hide ToEpochDay, MonthLength, FromEpochDay, DayNumber;
    ProperEpoch(d);
    if s == [] || ToEpochDay(d) < ToEpochDay(s[0]) {
    } else if ToEpochDay(d) == ToEpochDay(s[0]) {
      ProperEpoch(s[0]);
      assert s == [d] + s[1..];
    } else {
      InsertKeepsOrder(s[1..], d);
      assert s == [s[0]] + s[1..];
      var t := Insert(s[1..], d);
      forall j | 0 <= j < |t| ensures ToEpochDay(s[0]) < ToEpochDay(t[j]) {
        assert t[j] in s[1..] || t[j] == d;
      }
    }
  }

  lemma {:induction false} SortUniqueSorts(s: seq<LocalDate>)
    requires AllProper(s) && Months(s)
    ensures AllProper(SortUnique(s)) && Ascending(SortUnique(s))
    ensures forall x :: x in SortUnique(s) <==> x in s
  {
    hide ToEpochDay, Gregorian, Insert;
    if s != [] {
      var n := |s| - 1;
      SortUniqueSorts(s[..n]);
      InsertKeepsOrder(SortUnique(s[..n]), s[n]);
      assert s == s[..n] + [s[n]];
    }
  }

  // The candidates of period k: strictly ascending, and exactly the dates of the period that the rule selects.
  lemma CandidatesExact(r: Rule, start: LocalDate, k: int)
    requires WellFormed(r) && Start(start) && k >= 0
    ensures Ascending(CandidatesForPeriod(r, start, k))
    ensures forall d :: d in CandidatesForPeriod(r, start, k) <==> InPeriod(r, start, k * r.interval, d)
  {
    hide UnsortedDates, SortUnique, ToEpochDay, Selected, UnitOf;
    var dates := UnsortedDates(r, start, k);
    forall d ensures d in dates <==> InPeriod(r, start, k * r.interval, d) { UnsortedExact(r, start, k, d); }
    forall i | 0 <= i < |dates| ensures Proper(dates[i]) { assert dates[i] in dates; }
    SortUniqueSorts(dates);
  }

  lemma PeriodStartIs(r: Rule, start: LocalDate, k: int)
    requires WellFormed(r) && Start(start) && k >= 0
    ensures var p := PeriodStart(r, start, k);
            Proper(p) && ToEpochDay(p) == DayNumber(p) == UnitStart(r, UnitOf(r, DayNumber(start)) + k * r.interval)
  {
    hide DayNumber, ToEpochDay, MonthLength, StartOfWeek, AddMonths, FromEpochDay, UntilAllowed;
    var step := k * r.interval;
    NonNegative(k, r.interval);
    match r.freq
    case Daily => var _ := ShiftedDay(start, step);
    case Weekly => WeeklyStart(r, start, step);
    case Monthly => MonthlyStart(r, start, step);
    case Yearly =>
      UnitOfDate(r, start);
      FirstIsProper(PeriodStart(r, start, k));
  }

  lemma WeeklyStart(r: Rule, start: LocalDate, step: int)
    requires r.freq.Weekly? && Start(start) && step >= 0
    ensures var p := AddDays(StartOfWeek(start, r.wkst), step * 7);
            Proper(p) && ToEpochDay(p) == DayNumber(p) == UnitStart(r, UnitOf(r, DayNumber(start)) + step)
  {
    hide DayNumber, ToEpochDay, MonthLength, StartOfWeek, WeekdayOfDay;
    UsableIsLate(start);
    var w := StartOfWeekIs(start, r.wkst);
    ProperDays(AddDays(w, step * 7));
    ProperEpoch(AddDays(w, step * 7));
  }

  lemma MonthlyStart(r: Rule, start: LocalDate, step: int)
    requires r.freq.Monthly? && Start(start) && step >= 0
    ensures var (y, m) := AddMonths(start.year, start.month, step);
            var p := LocalDate(y, m, 1);
            Proper(p) && ToEpochDay(p) == DayNumber(p) == UnitStart(r, UnitOf(r, DayNumber(start)) + step)
  {
    hide DayNumber, ToEpochDay, MonthLength, FromEpochDay;
    MonthIndex(start, step);
    UnitOfDate(r, start);
    var (y, m) := AddMonths(start.year, start.month, step);
    FirstIsProper(LocalDate(y, m, 1));
  }

  lemma FirstIsProper(d: LocalDate)
    requires d.year >= 1 && 1 <= d.month <= 12 && d.day == 1
    ensures Proper(d) && ToEpochDay(d) == DayNumber(d)
  {
    ProperEpoch(d);
  }

  // Every candidate of period k lies from the period's first date up to the next period's.
  lemma CandidatesLieInTheirPeriod(r: Rule, start: LocalDate, k: int, d: LocalDate)
    requires WellFormed(r) && Start(start) && k >= 0 && d in CandidatesForPeriod(r, start, k)
    ensures CompareLocalDates(PeriodStart(r, start, k), d) <= 0 < CompareLocalDates(PeriodStart(r, start, k + 1), d)
    ensures PeriodsBetween(r, start, d) == k
  {
    hide CandidatesForPeriod, DayNumber, ToEpochDay, MonthLength, PeriodStart, PeriodsBetween, UnitOf, UnitStart,
         Selected, UntilAllowed, FromEpochDay;
    CandidatesExact(r, start, k);
    PeriodStartIs(r, start, k);
    PeriodStartIs(r, start, k + 1);
    ProperEpoch(d);
    var n, u, i := DayNumber(d), UnitOf(r, DayNumber(start)), r.interval;
    NextMultiple(k, i);
    UnitsAreBlocks(r, u + k * i, n);
    UnitsAreBlocks(r, u + (k + 1) * i, n);
    AfterWeekStart(r, start, k, d);
    PeriodsBetweenIs(r, start, d);
    RemainderIs(k * i, i, k, 0);
  }

  lemma AfterWeekStart(r: Rule, start: LocalDate, k: int, d: LocalDate)
    requires WellFormed(r) && Start(start) && k >= 0 && InPeriod(r, start, k * r.interval, d)
    ensures DayNumber(d) >= FIRST_PROPER_DAY + 6
  {
    hide DayNumber, MonthLength, Selected, FromEpochDay, UntilAllowed;
    NonNegative(k, r.interval);
    UsableIsLate(start);
    if r.freq.Monthly? || r.freq.Yearly? {
      UnitOfDate(r, start);
      UnitOfDate(r, d);
      UsableIsLate(d);
    }
  }

  lemma NonNegative(k: int, i: int)
    requires k >= 0 && i >= 1
    ensures k * i >= 0
  {}

  lemma NextMultiple(k: int, i: int)
    ensures (k + 1) * i == k * i + i
  {}

  // periodsBetween counts whole intervals of units.
  lemma PeriodsBetweenIs(r: Rule, start: LocalDate, d: LocalDate)
    requires WellFormed(r) && Start(start) && Proper(d) && DayNumber(d) >= FIRST_PROPER_DAY + 6
    ensures PeriodsBetween(r, start, d) == (UnitOf(r, DayNumber(d)) - UnitOf(r, DayNumber(start))) / r.interval
  {
    hide DayNumber, ToEpochDay, MonthLength, StartOfWeek, FromEpochDay, WeekdayIndex, UntilAllowed;
    match r.freq
    case Daily =>
      UsableIsLate(start);
      ProperEpoch(start);
      ProperEpoch(d);
    case Weekly => WeeksBetween(r, start, d);
    case Monthly =>
      UnitOfDate(r, start);
      UnitOfDate(r, d);
    case Yearly =>
      UnitOfDate(r, start);
      UnitOfDate(r, d);
  }

  lemma WeeksBetween(r: Rule, start: LocalDate, d: LocalDate)
    requires r.freq.Weekly? && r.interval >= 1 && Start(start) && Proper(d) && DayNumber(d) >= FIRST_PROPER_DAY + 6
    ensures PeriodsBetween(r, start, d) == (UnitOf(r, DayNumber(d)) - UnitOf(r, DayNumber(start))) / r.interval
  {
    hide DayNumber, ToEpochDay, MonthLength, StartOfWeek, WeekdayOfDay, WeekdayIndex;
    UsableIsLate(start);
    var v := StartOfWeekIs(start, r.wkst);
    var w := StartOfWeekIs(d, r.wkst);
    SevenCancels(UnitOf(r, DayNumber(d)) - UnitOf(r, DayNumber(start)), r.interval);
  }

  lemma SevenCancels(a: int, i: int)
    requires i >= 1
    ensures (7 * a) / (7 * i) == a / i
  {
    var q, m := a / i, a % i;
    assert 7 * a == (7 * i) * q + 7 * m;
    RemainderIs(7 * a, 7 * i, q, 7 * m);
  }
}
