// How far the expander's walk reaches, and when it reports the rule exhausted.
module WalkEnds {
  import opened Prelude
  import opened CivilDate
  import opened ZonedTime
  import opened Rules
  import opened Periods
  import opened RecurrenceSet
  import opened PeriodExact
  import opened Expand
  import opened ExpandExact
  import opened PeriodGuard

  // A day the rule produces, but past its UNTIL or its COUNT: meeting one is how the walk learns that the rule has
  // ended.
  ghost predicate PastTheEnd(s: Series, n: int)
    requires s.Valid()
  {
    Recurs(s, n) && !IsInstance(s, n)
  }

  // What a stop at day n tells: the rule has ended there, or its instance is at or past the window's end, or there are
  // too many.
  ghost predicate StopsAt(s: Series, w: Window, n: int, r: Expanded)
    requires s.Valid()
  {
    match r
    case Ok(e) => if e.exhausted then PastTheEnd(s, n) else IsInstance(s, n) && w.to <= InstantOn(s, n)
    case Err(_) => |ListedBefore(s, w, n + 1)| > w.limit
  }

  lemma ScanDateStops(s: Series, w: Window, k: int, d: LocalDate, occurrences: seq<Occurrence>, produced: int)
    requires s.Valid() && k >= 0 && InPeriod(s.rule, s.dtstart.date, k * s.rule.interval, d)
    requires Scanned(s, w, DayNumber(d), occurrences, produced)
    ensures match ScanDate(s, w, d, occurrences, produced)
            case Going(_, _) => !PastTheEnd(s, DayNumber(d))
            case Stopped(r) => StopsAt(s, w, DayNumber(d), r)
  {
    hide Lists, Recurs, Lawful, UntilAllowed, Selected, DayNumber, MonthLength, ToEpochDay, FromEpochDay, UnitOf,
         LocalToInstant, CompareLocalDateTimes, InstancesIn, Earlier, BeyondUntil, Scanned, StopsAt, PastTheEnd;
    CandidateRecurs(s, k, d);
    var n := DayNumber(d);
    if n < StartDay(s) {
      NotYet(s, n);
    } else {
      assert LocalOn(s, n) == s.dtstart.(date := d);
      BeyondIsTested(s, n);
      StepStops(s, w, n, occurrences, produced);
    }
  }

  lemma NotYet(s: Series, n: int)
    requires s.Valid() && n < StartDay(s)
    ensures !PastTheEnd(s, n)
  {
    hide Selected, UnitOf;
  }

  lemma StepStops(s: Series, w: Window, n: int, occurrences: seq<Occurrence>, produced: int)
    requires s.Valid() && Recurs(s, n) && Scanned(s, w, n, occurrences, produced)
    ensures match Step(s, w, n, occurrences, produced)
            case Going(_, _) => !PastTheEnd(s, n)
            case Stopped(r) => StopsAt(s, w, n, r)
  {
    hide Lists, Beyond, Lawful, UntilAllowed, Selected, InstantOn, LocalOn, Rank, UnitOf, InstancesIn, ListedBefore,
         Recurs;
    RecursFromStart(s, w, n);
    CountsRank(s, w, n, occurrences, produced);
    if Step(s, w, n, occurrences, produced).Stopped? && Step(s, w, n, occurrences, produced).result.Err? {
      OneTooMany(s, w, n, occurrences, produced);
    }
  }

  lemma CountsRank(s: Series, w: Window, n: int, occurrences: seq<Occurrence>, produced: int)
    requires s.Valid() && n >= StartDay(s) && Scanned(s, w, n, occurrences, produced)
    ensures s.rule.count.Some? ==> produced == Rank(s, n)
  {
    hide Lists, Lawful, UntilAllowed, InstantOn, Rank, InstancesIn, IsInstance;
  }

  lemma OneTooMany(s: Series, w: Window, n: int, occurrences: seq<Occurrence>, produced: int)
    requires s.Valid() && Recurs(s, n) && Scanned(s, w, n, occurrences, produced)
    requires !Beyond(s, n) && (s.rule.count.Some? ==> Rank(s, n) < s.rule.count.value)
    requires w.from <= InstantOn(s, n) < w.to && |occurrences| + 1 > w.limit
    ensures |ListedBefore(s, w, n + 1)| > w.limit
  {
    hide Lists, Beyond, Lawful, UntilAllowed, Selected, InstantOn, LocalOn, Rank, UnitOf, InstancesIn, ListedBefore,
         Recurs, IsInstance;
    OneMoreDay(s, w, n);
    ListIsSized(s, occurrences, ListedBefore(s, w, n));
    NotListed(s, w, n);
  }

  lemma NotListed(s: Series, w: Window, n: int)
    requires s.Valid()
    ensures n !in ListedBefore(s, w, n)
  {
    hide InstancesIn;
  }

  // The candidates of one period: the walk goes on past them, or stops at one of them.
  lemma {:induction false} ScanDatesStops(
    s: Series, w: Window, k: int, dates: seq<LocalDate>, day: int, occurrences: seq<Occurrence>, produced: int)
    returns (n: int)
    requires s.Valid() && k >= 0 && Months(dates) && Remaining(s, k, dates, day) && day <= PeriodDay(s, k + 1)
    requires Scanned(s, w, day, occurrences, produced)
    ensures match ScanDates(s, w, dates, occurrences, produced)
            case Going(_, _) => forall m :: day <= m < PeriodDay(s, k + 1) ==> !PastTheEnd(s, m)
            case Stopped(r) => day <= n < PeriodDay(s, k + 1) && StopsAt(s, w, n, r)
  {
    hide Recurs, Lawful, UntilAllowed, Selected, MonthLength, DayNumber, ToEpochDay, FromEpochDay, UnitOf, PeriodDay,
         ScanDate, Scanned, StopsAt, IsInstance;
    n := day;
    if dates != [] {
      NextCandidate(s, k, dates, day);
      QuietDays(s, w, day, DayNumber(dates[0]), occurrences, produced);
      ScanDateStops(s, w, k, dates[0], occurrences, produced);
      ScanDateIsCorrect(s, w, k, dates[0], occurrences, produced);
      n := DayNumber(dates[0]);
      match ScanDate(s, w, dates[0], occurrences, produced)
      case Stopped(_) =>
      case Going(o, p) => n := ScanDatesStops(s, w, k, dates[1..], DayNumber(dates[0]) + 1, o, p);
    }
  }

  // Period k is one the walk opens: it does not start past the day after the window's last local date.
  ghost predicate Opened(s: Series, w: Window, k: int)
    requires s.Valid() && s.Parsed()
  {
    CompareLocalDates(PeriodStart(s.rule, s.dtstart.date, k), LastDate(s, w)) <= 0
  }

  // Where a walk over the periods from k to end stops, and what it passes on the way.
  ghost predicate WalkStops(s: Series, w: Window, k: int, end: int, r: Outcome, stop: int, n: int)
    requires s.Valid() && s.Parsed()
  {
    match r
    case OutOfPeriods(_) => forall m :: PeriodDay(s, k) <= m < PeriodDay(s, end) ==> !PastTheEnd(s, m)
    case Finished(r) =>
      k <= stop < end
      && (forall m :: PeriodDay(s, k) <= m < PeriodDay(s, stop) ==> !PastTheEnd(s, m))
      && (if Opened(s, w, stop) then PeriodDay(s, stop) <= n < PeriodDay(s, stop + 1) && StopsAt(s, w, n, r)
          else r.Ok? && !r.value.exhausted && EndDay(s, w.to) <= PeriodDay(s, stop))
  }

  lemma {:induction false} ScanPeriodsStops(
    s: Series, w: Window, k: int, end: int, occurrences: seq<Occurrence>, produced: int) returns (stop: int, n: int)
    requires s.Valid() && s.Parsed() && 0 <= k <= end && Scanned(s, w, PeriodDay(s, k), occurrences, produced)
    ensures WalkStops(s, w, k, end, ScanPeriods(s, w, k, end, occurrences, produced), stop, n)
    decreases end - k
  {
    hide Scanned, Lawful, UntilAllowed, ScanDates, CandidatesForPeriod, PeriodStart, LastDate, CompareLocalDates,
         PeriodDay, Remaining, Usable, StopsAt, PastTheEnd, EndDay;
    stop, n := k, 0;
    if k < end {
      if !Opened(s, w, k) {
        CutoffIsLate(s, w, k);
      } else {
        var dates := CandidatesForPeriod(s.rule, s.dtstart.date, k);
        PeriodRemains(s, k);
        ScanDatesIsCorrect(s, w, k, dates, PeriodDay(s, k), occurrences, produced);
        n := ScanDatesStops(s, w, k, dates, PeriodDay(s, k), occurrences, produced);
        match ScanDates(s, w, dates, occurrences, produced)
        case Stopped(_) =>
        case Going(o, p) => stop, n := ScanPeriodsStops(s, w, k + 1, end, o, p);
      }
    }
  }

  // --- How far a walk reaches --------------------------------------------------------------------------------------

  // The first day past the periods the guard lets the walk open.
  ghost function Reach(s: Series, w: Window): int
    requires s.Valid() && s.Parsed()
  {
    PeriodDay(s, FirstPeriod(s, w) + MAX_PERIODS)
  }

  lemma WalkStopsSomewhere(s: Series, w: Window) returns (stop: int, n: int)
    requires s.Valid() && s.Parsed() && w.limit >= 0
    ensures WalkStops(s, w, FirstPeriod(s, w), FirstPeriod(s, w) + MAX_PERIODS, Walk(s, w), stop, n)
  {
    hide WalkStops, ScanPeriods, FirstPeriod, Lawful, UntilAllowed, Usable, Scanned;
    var first := FirstPeriod(s, w);
    StartOfWalk(s, w);
    stop, n := ScanPeriodsStops(s, w, first, first + MAX_PERIODS, [], 0);
  }

  // Past the day a walk stops at, or the period it stops before, the window has no instance.
  lemma NothingPastTheStop(s: Series, w: Window, stop: int, n: int, m: int)
    requires s.Valid() && s.Parsed() && w.limit >= 0 && Walk(s, w).Finished? && Walk(s, w).result.Ok?
    requires WalkStops(s, w, FirstPeriod(s, w), FirstPeriod(s, w) + MAX_PERIODS, Walk(s, w), stop, n)
    requires m in InstancesIn(s, w.from, w.to)
    ensures m < Reach(s, w)
  {
    hide Walk, FirstPeriod, PeriodDay, InstantOn, IsInstance, Recurs, Beyond, Rank, InstancesIn, Opened, EndDay, Lawful,
         Usable, UntilAllowed;
    InstanceInWindow(s, w.from, w.to, m);
    InstanceRecurs(s, m);
    PeriodsAscend(s, stop + 1, FirstPeriod(s, w) + MAX_PERIODS);
    if Opened(s, w, stop) {
      if n <= m { NotAfterAStop(s, w, n, m, Walk(s, w).result); }
    } else {
      PeriodsAscend(s, stop, FirstPeriod(s, w) + MAX_PERIODS);
      if PeriodDay(s, stop) <= m { PastTheWindow(s, w.to, m); }
    }
  }

  lemma InstanceRecurs(s: Series, m: int)
    requires s.Valid() && IsInstance(s, m)
    ensures Recurs(s, m) && StartDay(s) <= m
  {
    hide Selected, UnitOf, Beyond, Rank;
  }

  lemma NotAfterAStop(s: Series, w: Window, n: int, m: int, r: Expanded)
    requires s.Valid() && n <= m && IsInstance(s, m) && StopsAt(s, w, n, r) && r.Ok?
    ensures !r.value.exhausted && w.to <= InstantOn(s, m)
  {
    hide Beyond, Lawful, UntilAllowed, Selected, InstantOn, UnitOf, Rank, Recurs;
    LaterDay(s, n, m);
  }

  lemma TooManyInReach(s: Series, w: Window, stop: int, n: int)
    requires s.Valid() && s.Parsed() && Walk(s, w).Finished? && Walk(s, w).result.Err?
    requires WalkStops(s, w, FirstPeriod(s, w), FirstPeriod(s, w) + MAX_PERIODS, Walk(s, w), stop, n)
    ensures |ListedBefore(s, w, Reach(s, w))| > w.limit
  {
    hide Walk, FirstPeriod, PeriodDay, InstantOn, IsInstance, InstancesIn, Opened, EndDay, Lawful, Usable, UntilAllowed;
    PeriodsAscend(s, stop + 1, FirstPeriod(s, w) + MAX_PERIODS);
    Subset(ListedBefore(s, w, n + 1), ListedBefore(s, w, Reach(s, w)));
  }

  lemma EndedInReach(s: Series, w: Window, stop: int, n: int, m: int)
    requires s.Valid() && s.Parsed() && Walk(s, w).Finished? && Walk(s, w).result.Ok?
             && Walk(s, w).result.value.exhausted
    requires WalkStops(s, w, FirstPeriod(s, w), FirstPeriod(s, w) + MAX_PERIODS, Walk(s, w), stop, n)
             && IsInstance(s, m)
    ensures m < Reach(s, w)
  {
    hide Walk, FirstPeriod, PeriodDay, InstantOn, IsInstance, Recurs, InstancesIn, Opened, EndDay, Lawful, Usable,
         UntilAllowed;
    PeriodsAscend(s, stop + 1, FirstPeriod(s, w) + MAX_PERIODS);
    if n <= m { NotAfterAStop(s, w, n, m, Walk(s, w).result); }
  }

  // A walk lists exactly the window's instances in its reach, in order, or refuses because those are too many; when it
  // reports the rule exhausted no instance is left, in its reach or out of it.
  lemma WalkListsItsReach(s: Series, w: Window)
    requires s.Valid() && s.Parsed() && w.limit >= 0
    ensures match Walk(s, w).Result()
            case Ok(e) =>
              && Lists(s, e.occurrences, ListedBefore(s, w, Reach(s, w)))
              && |ListedBefore(s, w, Reach(s, w))| <= w.limit
              && (e.exhausted ==> forall m :: IsInstance(s, m) ==>
                    m < Reach(s, w) && (InstantOn(s, m) < w.to || InstantOn(s, m) < w.from))
            case Err(RecurrenceTooDense(limit)) => limit == w.limit < |ListedBefore(s, w, Reach(s, w))|
  {
    hide Lists, Lawful, UntilAllowed, ScanPeriods, Usable, IsInstance, InstantOn, InstancesIn, FirstPeriod, PeriodDay,
         StopsAt, EndDay, Opened, Walk;
    var stop, n := WalkStopsSomewhere(s, w);
    match Walk(s, w) {
      case OutOfPeriods(_) =>
        CutShortIsSound(s, w);
        ListIsSized(s, Walk(s, w).occurrences, ListedBefore(s, w, Reach(s, w)));
      case Finished(Err(_)) =>
        WalkIsExact(s, w);
        TooManyInReach(s, w, stop, n);
      case Finished(Ok(e)) =>
        WalkIsExact(s, w);
        forall m | m in InstancesIn(s, w.from, w.to) ensures m < Reach(s, w) { NothingPastTheStop(s, w, stop, n, m); }
        assert ListedBefore(s, w, Reach(s, w)) == InstancesIn(s, w.from, w.to);
        forall m | e.exhausted && IsInstance(s, m) ensures m < Reach(s, w) { EndedInReach(s, w, stop, n, m); }
    }
  }

  // --- Windows of up to five centuries -----------------------------------------------------------------------------

  // With COUNT the walk starts at DTSTART, so the guard sets one limit for every window; without, none.
  ghost predicate InReach(s: Series, n: int)
    requires s.Valid()
  {
    s.rule.count.Some? ==> n < PeriodDay(s, MAX_PERIODS)
  }

  // That limit is over five centuries from DTSTART.
  lemma ReachIsCenturies(s: Series, n: int)
    requires s.Valid() && n <= StartDay(s) + GUARD_DAYS
    ensures InReach(s, n)
  {
    hide PeriodDay, Lawful, Usable, WellFormed;
    StartsInFirstPeriod(s);
    PeriodsTakeDays(s, 1, MAX_PERIODS);
  }

  ghost function ReachedIn(s: Series, from: int, to: int): set<int>
    requires s.Valid()
  {
    set n | n in InstancesIn(s, from, to) && InReach(s, n)
  }

  lemma ReachedInWindow(s: Series, from: int, to: int, n: int)
    requires s.Valid()
    ensures n in ReachedIn(s, from, to) <==> IsInstance(s, n) && InReach(s, n) && from <= InstantOn(s, n) < to
  {
    hide InstantOn, IsInstance, InReach, InstancesIn;
    InstanceInWindow(s, from, to, n);
  }

  // An expansion lists exactly the instances in reach whose instants lie in the window, in order, or refuses because
  // those are too many; when it reports the rule exhausted none is left at all.
  lemma WindowsList(s: Series, w: Window)
    requires s.Valid() && s.Parsed() && w.limit >= 0 && w.to - w.from <= GUARD_DAYS * MS_PER_DAY
    ensures match Walk(s, w).Result()
            case Ok(e) =>
              && Lists(s, e.occurrences, ReachedIn(s, w.from, w.to))
              && |ReachedIn(s, w.from, w.to)| <= w.limit
              && (e.exhausted ==> forall n :: IsInstance(s, n) ==>
                    InReach(s, n) && (InstantOn(s, n) < w.to || InstantOn(s, n) < w.from))
            case Err(RecurrenceTooDense(limit)) => limit == w.limit < |ReachedIn(s, w.from, w.to)|
  {
    hide Lists, Lawful, UntilAllowed, Usable, IsInstance, InstantOn, InstancesIn, PeriodDay, Walk, WellFormed;
    if s.rule.count.None? {
      UncountedWindowsFinish(s, w);
      WalkIsExact(s, w);
      assert ReachedIn(s, w.from, w.to) == InstancesIn(s, w.from, w.to);
    } else {
      CountedFromZero(s, w);
      WalkListsItsReach(s, w);
      assert ReachedIn(s, w.from, w.to) == ListedBefore(s, w, Reach(s, w));
    }
  }

  // --- When the rule is reported exhausted -------------------------------------------------------------------------

  // A period the walk may open holds a day past the rule's end.
  ghost predicate MeetsTheEnd(s: Series, w: Window)
    requires s.Valid() && s.Parsed()
  {
    exists k, n :: FirstPeriod(s, w) <= k && Opened(s, w, k) && PeriodDay(s, k) <= n < PeriodDay(s, k + 1)
      && PastTheEnd(s, n)
  }

  lemma OpenedInTurn(s: Series, w: Window, j: int, k: int)
    requires s.Valid() && s.Parsed() && 0 <= j <= k && Opened(s, w, k)
    ensures Opened(s, w, j)
  {
    hide UnitOf, UnitStart, LastDate, PeriodStart, Lawful, Usable, UntilAllowed, DayNumber, ToEpochDay, MonthLength;
    ValidStart(s);
    PeriodStartIs(s.rule, s.dtstart.date, j);
    PeriodStartIs(s.rule, s.dtstart.date, k);
    PeriodsAscend(s, j, k);
  }

  lemma ValidStart(s: Series)
    requires s.Valid()
    ensures PeriodExact.Start(s.dtstart.date) && WellFormed(s.rule)
  {
    hide Lawful, WellFormed;
  }

  // The rule is reported exhausted exactly when no instance is left at or past the window's end and the walk meets a
  // day past the rule's end: having no instance left is not enough.
  lemma ExhaustedIff(s: Series, w: Window)
    requires s.Valid() && s.Parsed() && w.limit >= 0 && w.from <= w.to && Walk(s, w).Finished? && Walk(s, w).result.Ok?
    ensures Walk(s, w).result.value.exhausted <==>
            MeetsTheEnd(s, w) && forall m :: IsInstance(s, m) ==> InstantOn(s, m) < w.to
  {
    hide Lists, Lawful, UntilAllowed, ScanPeriods, Usable, IsInstance, InstantOn, InstancesIn, FirstPeriod, PeriodDay,
         PastTheEnd, EndDay, Opened, Walk;
    var stop, n := WalkStopsSomewhere(s, w);
    WalkIsExact(s, w);
    if !Opened(s, w, stop) { CutOffBeforeTheEnd(s, w, stop); }
  }

  lemma CutOffBeforeTheEnd(s: Series, w: Window, stop: int)
    requires s.Valid() && s.Parsed() && FirstPeriod(s, w) <= stop && !Opened(s, w, stop)
    requires forall m :: PeriodDay(s, FirstPeriod(s, w)) <= m < PeriodDay(s, stop) ==> !PastTheEnd(s, m)
    ensures !MeetsTheEnd(s, w)
  {
    hide Lawful, UntilAllowed, Usable, FirstPeriod, PeriodDay, PastTheEnd, Opened;
    forall k, m | FirstPeriod(s, w) <= k && Opened(s, w, k) && PeriodDay(s, k) <= m < PeriodDay(s, k + 1)
      ensures !PastTheEnd(s, m)
    {
      if stop <= k {
        OpenedInTurn(s, w, stop, k);
      } else {
        PeriodsAscend(s, k + 1, stop);
        PeriodsAscend(s, FirstPeriod(s, w), k);
      }
    }
  }

  // --- What the report misses --------------------------------------------------------------------------------------

  // Every i-th day, ended by UNTIL before the second.
  ghost predicate OnceOnly(s: Series, until: LocalDate) {
    && s.Valid() && Proper(until)
    && s.rule == Rule(Daily, s.rule.interval, None, Some(UntilDate(until)), [], [], [], MO)
    && StartDay(s) <= DayNumber(until) < StartDay(s) + s.rule.interval
  }

  lemma DailyRecurs(s: Series, n: int)
    requires s.Valid() && s.rule.freq.Daily?
    ensures Recurs(s, n) ==> StartDay(s) <= n && (n - StartDay(s)) % s.rule.interval == 0
    ensures PeriodDay(s, 0) == StartDay(s) && PeriodDay(s, 1) == StartDay(s) + s.rule.interval
  {
    hide Selected, DayNumber, FromEpochDay, MonthLength, Lawful, Usable, WellFormed;
  }

  lemma FirstDayRecurs(s: Series)
    requires s.Valid() && s.rule.freq.Daily? && s.rule.byDay == [] && s.rule.byMonthDay == [] && s.rule.byMonth == []
    ensures Recurs(s, StartDay(s))
  {
    hide DayNumber, FromEpochDay, MonthLength, Lawful, Usable, UntilAllowed;
  }

  lemma OnlyOnce(s: Series, until: LocalDate, n: int)
    requires OnceOnly(s, until)
    ensures IsInstance(s, n) <==> n == StartDay(s)
    ensures StartDay(s) <= n < StartDay(s) + s.rule.interval ==> !PastTheEnd(s, n)
  {
    hide DayNumber, MonthLength, Lawful, Usable, UntilAllowed, Recurs;
    var i := s.rule.interval;
    DailyRecurs(s, n);
    FirstDayRecurs(s);
    if StartDay(s) <= n {
      if Recurs(s, n) { SmallMultiple(n - StartDay(s), i); }
    }
  }

  lemma SmallMultiple(a: int, i: int)
    requires 0 <= a && i >= 1 && a % i == 0
    ensures a == 0 || i <= a
  {}

  lemma OpenedBefore(s: Series, w: Window, k: int)
    requires s.Valid() && s.Parsed() && k >= 0 && Opened(s, w, k)
    ensures PeriodDay(s, k) <= Reading(w.to, s.zone) / DAY + 3
  {
    hide DayNumber, FromEpochDay, ToEpochDay, MonthLength, Lawful, Usable, PeriodStart, LastDate, UnitOf, UnitStart,
         WellFormed;
    ValidStart(s);
    PeriodStartIs(s.rule, s.dtstart.date, k);
    LastDateIs(s, w);
  }

  // Having nothing left is not enough: such a rule is over after its first day, but over a window that closes before
  // the next one would come it is not reported exhausted.
  lemma ExhaustionIsMissed(s: Series, until: LocalDate, w: Window)
    requires OnceOnly(s, until) && s.Parsed() && w.limit >= 0 && w.from <= w.to <= w.from + GUARD_DAYS * MS_PER_DAY
    requires InstantOn(s, StartDay(s)) < w.from && Reading(w.to, s.zone) / DAY + 3 < StartDay(s) + s.rule.interval
    ensures forall n :: IsInstance(s, n) ==> InstantOn(s, n) < w.from
    ensures Walk(s, w).Result() == Ok(Expansion([], false))
  {
    hide Walk, DayNumber, MonthLength, Lawful, Usable, InstantOn, MeetsTheEnd, InstancesIn, Lists, WellFormed,
         IsInstance;
    forall n ensures IsInstance(s, n) <==> n == StartDay(s) { OnlyOnce(s, until, n); }
    UncountedWindowsFinish(s, w);
    WalkIsExact(s, w);
    NoneLeft(s, w);
    NoEndMet(s, until, w);
    ExhaustedIff(s, w);
  }

  lemma NoneLeft(s: Series, w: Window)
    requires s.Valid() && forall n :: IsInstance(s, n) ==> InstantOn(s, n) < w.from
    ensures InstancesIn(s, w.from, w.to) == {}
    ensures forall occurrences :: Lists(s, occurrences, {}) ==> occurrences == []
  {
    hide IsInstance, InstantOn, Lawful, Usable, EndDay, WellFormed;
  }

  lemma NoEndMet(s: Series, until: LocalDate, w: Window)
    requires OnceOnly(s, until) && s.Parsed() && Reading(w.to, s.zone) / DAY + 3 < StartDay(s) + s.rule.interval
    ensures !MeetsTheEnd(s, w)
  {
    hide DayNumber, MonthLength, Lawful, Usable, FirstPeriod, Opened, PeriodDay, PastTheEnd, WellFormed;
    forall k, n | FirstPeriod(s, w) <= k && Opened(s, w, k) && PeriodDay(s, k) <= n < PeriodDay(s, k + 1)
      ensures !PastTheEnd(s, n)
    {
      DailyRecurs(s, n);
      OpenedBefore(s, w, k);
      if k >= 1 { PeriodsAscend(s, 1, k); }
      OnlyOnce(s, until, n);
    }
  }

  // Such a rule can start on any day: every tenth day, until the fifth after it, over the next day.
  lemma SuchARule(day: int) returns (s: Series, until: LocalDate, w: Window)
    requires day >= FIRST_USABLE_DAY && FromEpochDay(day + 5).year <= 9999
    ensures OnceOnly(s, until) && s.Parsed() && w.limit >= 0 && w.from <= w.to <= w.from + GUARD_DAYS * MS_PER_DAY
    ensures StartDay(s) == day
    ensures InstantOn(s, StartDay(s)) < w.from && Reading(w.to, s.zone) / DAY + 3 < StartDay(s) + s.rule.interval
  {
    hide InstantOn, LocalOn, DayNumber, MonthLength, Usable, Proper, Lawful, Reading, WellFormed, Gregorian,
         FromEpochDay, Expand.Series.Valid;
    var start := FromEpochDay(day);
    until := FromEpochDay(day + 5);
    var rule := Rule(Daily, 10, None, Some(UntilDate(until)), [], [], [], MO);
    s := Series(rule, LocalDateTime(start, 0, 0, 0), Zone(t => 0));
    w := Window((day + 1) * MS_PER_DAY, (day + 2) * MS_PER_DAY, MAX_OCCURRENCES);
    RealDay(day);
    RealDay(day + 5);
    assert WellFormed(rule) by { EveryTenth(rule, until); }
    InUtc(s, day);
    SecondsInUtc(w.to, s.zone);
  }

  lemma RealDay(n: int)
    requires n >= FIRST_USABLE_DAY
    ensures Usable(LocalDateTime(FromEpochDay(n), 0, 0, 0)) && Proper(FromEpochDay(n))
    ensures FromEpochDay(n).year <= 9999 ==> RealDate(FromEpochDay(n))
  {
    hide DayNumber, FromEpochDay, MonthLength;
    UsableDays(FromEpochDay(n));
    MonthLengthsAgree(FromEpochDay(n).year, FromEpochDay(n).month);
  }

  lemma EveryTenth(rule: Rule, until: LocalDate)
    requires RealDate(until) && rule == Rule(Daily, 10, None, Some(UntilDate(until)), [], [], [], MO)
    ensures WellFormed(rule)
  {}

  lemma SecondsInUtc(t: int, z: Zone)
    requires z == Zone(t => 0)
    ensures Reading(t, z) == Second(t)
  {}

  lemma InUtc(s: Series, n: int)
    requires WellFormed(s.rule) && Usable(s.dtstart) && s.zone == Zone(t => 0) && SecondOfDay(s.dtstart) == 0
    requires n >= DayNumber(s.dtstart.date)
    ensures s.Valid() && s.Parsed() && InstantOn(s, n) == MS_PER_DAY * n
  {
    hide InstantOn, LocalOn, DayNumber, MonthLength, WellFormed, Usable, Resolve, LocalAsUtc;
    UtcIsLawful(s.zone, DAY * n);
    ValidStart(s);
    UsableOn(s, n);
  }

  lemma UtcIsLawful(z: Zone, p: int)
    requires z == Zone(t => 0)
    ensures Lawful(z) && Resolve(p, z) == p
  {}
}
