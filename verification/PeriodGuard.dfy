// When the expander's guard on the number of periods cannot fire.
module PeriodGuard {
  import opened CivilDate
  import opened ZonedTime
  import opened Rules
  import opened Periods
  import opened RecurrenceSet
  import opened PeriodExact
  import opened Expand
  import opened ExpandExact

  // Well under MAX_PERIODS days: the margin covers the source's own.
  const GUARD_DAYS: int := 199_900

  lemma {:induction false} CutoffEndsTheWalk(
    s: Series, w: Window, k: int, end: int, occurrences: seq<Occurrence>, produced: int)
    requires s.Parsed() && k < end
    requires CompareLocalDates(PeriodStart(s.rule, s.dtstart.date, end - 1), LastDate(s, w)) > 0
    ensures ScanPeriods(s, w, k, end, occurrences, produced).Finished?
    decreases end - k
  {
    hide PeriodStart, LastDate, CompareLocalDates, CandidatesForPeriod, ScanDates, WellFormed;
    if k < end - 1 && CompareLocalDates(PeriodStart(s.rule, s.dtstart.date, k), LastDate(s, w)) <= 0 {
      match ScanDates(s, w, CandidatesForPeriod(s.rule, s.dtstart.date, k), occurrences, produced)
      case Stopped(_) =>
      case Going(o, p) => CutoffEndsTheWalk(s, w, k + 1, end, o, p);
    }
  }

  // Each period is at least a day long.
  lemma {:induction false} PeriodsTakeDays(s: Series, j: int, k: int)
    requires s.Valid() && 0 <= j <= k
    ensures PeriodDay(s, j) + (k - j) <= PeriodDay(s, k)
    decreases k - j
  {
    hide Lawful, UntilAllowed, Usable, UnitStart, UnitOf;
    if j < k {
      PeriodsTakeDays(s, j, k - 1);
      var u, i := UnitOf(s.rule, StartDay(s)), s.rule.interval;
      NextMultiple(k - 1, i);
      UnitsAreBlocks(s.rule, u + (k - 1) * i, PeriodDay(s, k - 1));
      UnitsAreBlocks(s.rule, u + k * i, PeriodDay(s, k));
      UnitsAreBlocks(s.rule, u + k * i, PeriodDay(s, k - 1));
      UnitStartIsInUnit(s.rule, u + (k - 1) * i);
    }
  }

  lemma UnitStartIsInUnit(r: Rule, u: int)
    ensures UnitOf(r, UnitStart(r, u)) == u
  {
    hide DayNumber, FromEpochDay, MonthLength, WeekdayIndex;
    match r.freq
    case Daily =>
    case Weekly =>
    case Monthly =>
      var d := LocalDate((u - 1) / 12, (u - 1) % 12 + 1, 1);
      FirstOfMonth(d);
      DateOfDay(d, DayNumber(d));
    case Yearly =>
      FirstOfMonth(LocalDate(u, 1, 1));
      DateOfDay(LocalDate(u, 1, 1), DayNumber(LocalDate(u, 1, 1)));
  }

  lemma LastDateIs(s: Series, w: Window)
    ensures ToEpochDay(LastDate(s, w)) <= Reading(w.to, s.zone) / DAY + 3
  {
    hide DayNumber, ToEpochDay, FromEpochDay, MonthLength;
    ClockDate(w.to, s.zone);
    QuirkIsOneDay(InstantToLocal(w.to, s.zone).date);
    QuirkIsOneDay(LastDate(s, w));
  }

  lemma LatePeriodsEndTheWalk(s: Series, w: Window)
    requires s.Valid() && s.Parsed()
    requires Reading(w.to, s.zone) / DAY + 3 < PeriodDay(s, FirstPeriod(s, w) + MAX_PERIODS - 1)
    ensures Walk(s, w).Finished?
  {
    hide DayNumber, ToEpochDay, FromEpochDay, MonthLength, Lawful, UntilAllowed, PeriodStart, FirstPeriod, LastDate,
         ScanPeriods, UnitOf, UnitStart;
    var first := FirstPeriod(s, w);
    PeriodStartIs(s.rule, s.dtstart.date, first + MAX_PERIODS - 1);
    LastDateIs(s, w);
    CutoffEndsTheWalk(s, w, first, first + MAX_PERIODS, [], 0);
  }

  // With COUNT the walk starts at DTSTART: it finishes when the window ends within five centuries of it.
  lemma WindowsNearTheStartFinish(s: Series, w: Window)
    requires s.Valid() && s.Parsed() && Reading(w.to, s.zone) / DAY <= StartDay(s) + GUARD_DAYS
    requires s.rule.count.Some?
    ensures Walk(s, w).Finished?
  {
    hide Lawful, UntilAllowed, Usable, UnitStart, UnitOf, FirstPeriod, Walk;
    CountedFromZero(s, w);
    StartsInFirstPeriod(s);
    PeriodsTakeDays(s, 1, MAX_PERIODS - 1);
    LatePeriodsEndTheWalk(s, w);
  }

  lemma StartsInFirstPeriod(s: Series)
    requires s.Valid()
    ensures StartDay(s) < PeriodDay(s, 1)
  {
    hide Lawful, UntilAllowed, Usable, UnitStart, UnitOf;
    UnitsAreBlocks(s.rule, UnitOf(s.rule, StartDay(s)) + s.rule.interval, StartDay(s));
  }

  // The skip lands close enough: the window starts within two periods of the first one walked.
  lemma SkipIsClose(s: Series, w: Window)
    requires s.Valid() && s.Parsed() && s.rule.count.None?
    ensures Reading(w.from, s.zone) / DAY - 2 <= PeriodDay(s, FirstPeriod(s, w) + 2)
  {
    hide MonthLength, DayNumber, ToEpochDay, FromEpochDay, UntilAllowed, Lawful, UnitOf, UnitStart, PeriodsBetween;
    var r, start := s.rule, s.dtstart.date;
    var local := InstantToLocal(w.from, s.zone).date;
    var d := AddDays(local, -2);
    var k := FirstPeriod(s, w);
    ClockDate(w.from, s.zone);
    QuirkIsOneDay(local);
    UsableDays(d);
    UsableDays(start);
    if d.year < 1 {
      StartsInFirstPeriod(s);
      PeriodsAscend(s, 1, k + 2);
    } else {
      LateDay(d);
      PeriodsBetweenIs(r, start, d);
      NextInterval(UnitOf(r, DayNumber(d)) - UnitOf(r, StartDay(s)), k + 2, r.interval);
      UnitsAreBlocks(r, UnitOf(r, StartDay(s)) + (k + 2) * r.interval, DayNumber(d));
    }
  }

  lemma NextInterval(a: int, k: int, i: int)
    requires i >= 1 && k > a / i
    ensures a < k * i
  {
    Ordered(a / i + 1, k, i);
    NextMultiple(a / i, i);
  }

  // Without COUNT, every window of up to five centuries finishes, wherever it lies.
  lemma UncountedWindowsFinish(s: Series, w: Window)
    requires s.Valid() && s.Parsed() && s.rule.count.None? && w.to - w.from <= GUARD_DAYS * MS_PER_DAY
    ensures Walk(s, w).Finished?
  {
    hide UntilAllowed, Usable, UnitStart, UnitOf, FirstPeriod, Walk;
    var first := FirstPeriod(s, w);
    SkipIsClose(s, w);
    PeriodsTakeDays(s, first + 2, first + MAX_PERIODS - 1);
    LatePeriodsEndTheWalk(s, w);
  }
}
