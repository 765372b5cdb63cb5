// The expander computes the recurrence set: exactly the rule's instances whose instants lie in the window, in order.
module ExpandExact {
  import opened Prelude
  import opened CivilDate
  import opened ZonedTime
  import opened Rules
  import opened Periods
  import opened RecurrenceSet
  import opened PeriodExact
  import opened Expand

  // --- The recurrence set, by day number ---------------------------------------------------------------------------

  ghost function StartDay(s: Series): int
    requires s.Valid()
  {
    DayNumber(s.dtstart.date)
  }

  ghost function LocalOn(s: Series, n: int): (l: LocalDateTime)
    ensures Gregorian(l.date) && DayNumber(l.date) == n
  {
    s.dtstart.(date := FromEpochDay(n))
  }

  ghost function InstantOn(s: Series, n: int): int { LocalToInstant(LocalOn(s, n), s.zone) }

  ghost function OccurrenceOn(s: Series, n: int): Occurrence { Occurrence(LocalOn(s, n), InstantOn(s, n)) }

  // The rule produces day n: on or after DTSTART, in a unit a whole number of intervals on, and selected there.
  ghost predicate Recurs(s: Series, n: int)
    requires s.Valid()
  {
    && n >= StartDay(s)
    && (UnitOf(s.rule, n) - UnitOf(s.rule, StartDay(s))) % s.rule.interval == 0
    && Selected(s.rule, s.dtstart.date, FromEpochDay(n))
  }

  // Day n is past UNTIL. A date includes its whole day, a UTC time is compared with the instant, a time without a zone
  // with the local date and time; each is itself still included.
  ghost predicate Beyond(s: Series, n: int)
    requires s.Valid()
  {
    match s.rule.until
    case None => false
    case Some(UntilDate(d)) => DayNumber(d) < n
    case Some(UntilUtc(t)) => t < InstantOn(s, n)
    case Some(UntilLocal(l)) =>
      DayNumber(l.date) < n || (DayNumber(l.date) == n && SecondOfDay(l) < SecondOfDay(s.dtstart))
  }

  ghost function Earlier(s: Series, n: int): set<int>
    requires s.Valid()
  {
    set m: int | StartDay(s) <= m < n && Recurs(s, m)
  }

  // How many days the rule produces before day n, counted from DTSTART.
  ghost function Rank(s: Series, n: int): int
    requires s.Valid()
  {
    |Earlier(s, n)|
  }

  // An instance: produced, not past UNTIL, among the first COUNT.
  ghost predicate IsInstance(s: Series, n: int)
    requires s.Valid()
  {
    Recurs(s, n) && !Beyond(s, n) && (s.rule.count.Some? ==> Rank(s, n) < s.rule.count.value)
  }

  // An instant before `to` falls on an earlier day than this one.
  ghost function EndDay(s: Series, to: int): int { Reading(to, s.zone) / DAY + 2 }

  ghost function InstancesIn(s: Series, from: int, to: int): set<int>
    requires s.Valid()
  {
    set n: int | StartDay(s) <= n < EndDay(s, to) && IsInstance(s, n) && from <= InstantOn(s, n) < to
  }

  // --- Instants of a series ----------------------------------------------------------------------------------------

  lemma UsableOn(s: Series, n: int)
    requires s.Valid() && n >= StartDay(s)
    ensures Usable(LocalOn(s, n)) && ToEpochDay(LocalOn(s, n).date) == n
    ensures LocalAsUtc(LocalOn(s, n)) == DAY * n + SecondOfDay(s.dtstart)
    ensures 0 <= SecondOfDay(s.dtstart) < DAY
    ensures InstantOn(s, n) == 1000 * Resolve(DAY * n + SecondOfDay(s.dtstart), s.zone)
  {
    hide DayNumber, MonthLength, ToEpochDay, FromEpochDay, LocalToInstant, UntilAllowed, Lawful;
    UsableDays(s.dtstart.date);
    UsableDays(LocalOn(s, n).date);
    ResolvesInSeconds(LocalOn(s, n), s.zone);
  }

  lemma InstantsAscend(s: Series, m: int, n: int)
    requires s.Valid() && StartDay(s) <= m < n
    ensures InstantOn(s, m) < InstantOn(s, n)
  {
    hide InstantOn, LocalOn, Lawful, UntilAllowed, Resolve;
    UsableOn(s, m);
    UsableOn(s, n);
    ResolveAscends(DAY * m + SecondOfDay(s.dtstart), DAY * n + SecondOfDay(s.dtstart), s.zone);
  }

  // A day past the window's last local date is at or past its end; the clock cannot make up a whole day.
  lemma PastTheWindow(s: Series, to: int, n: int)
    requires s.Valid() && StartDay(s) <= n && EndDay(s, to) <= n
    ensures to <= InstantOn(s, n)
  {
    hide InstantOn, LocalOn, Lawful, UntilAllowed, Resolve;
    UsableOn(s, n);
    LaterReadingIsLater(DAY * n + SecondOfDay(s.dtstart), Second(to), s.zone);
  }

  // A day at least two before the window's first local date is before its start.
  lemma BeforeTheWindow(s: Series, from: int, n: int)
    requires s.Valid() && StartDay(s) <= n && n + 3 <= Reading(from, s.zone) / DAY
    ensures InstantOn(s, n) < from
  {
    hide InstantOn, LocalOn, Lawful, UntilAllowed, Resolve;
    UsableOn(s, n);
    MuchEarlierReadingIsEarlier(DAY * n + SecondOfDay(s.dtstart), Second(from), s.zone);
  }

  // The expander's test is that, for every UNTIL a rule may have.
  lemma BeyondIsTested(s: Series, n: int)
    requires s.Valid() && n >= StartDay(s)
    ensures BeyondUntil(s.rule, LocalOn(s, n), InstantOn(s, n)) <==> Beyond(s, n)
  {
    hide DayNumber, FromEpochDay, ToEpochDay, MonthLength, DaysInMonth, LocalOn, InstantOn, Lawful, Usable,
         SecondOfDay, FromLocalSeconds;
    UsableOn(s, n);
    match s.rule.until
    case Some(UntilDate(d)) => RealDateNumber(d);
    case Some(UntilLocal(l)) =>
      RealDateNumber(l.date);
      SecondIsInDay(l);
    case _ =>
  }

  lemma RealDateNumber(d: LocalDate)
    requires RealDate(d)
    ensures ToEpochDay(d) == DayNumber(d)
  {
    hide DayNumber, FromEpochDay, MonthLength, DaysInMonth, ToEpochDay;
    RealDateIsGregorian(d);
    QuirkIsOneDay(d);
  }

  lemma RealDateIsGregorian(d: LocalDate)
    requires RealDate(d)
    ensures Gregorian(d) && d != QUIRK
  {
    MonthLengthsAgree(d.year, d.month);
  }

  // A day the rule produces exactly at its UNTIL is an instance, the last.
  lemma UntilIsInclusive(s: Series, n: int)
    requires s.Valid() && Recurs(s, n)
    requires match s.rule.until
             case None => false
             case Some(UntilDate(d)) => DayNumber(d) == n
             case Some(UntilUtc(t)) => t == InstantOn(s, n)
             case Some(UntilLocal(l)) => l == LocalOn(s, n)
    ensures IsInstance(s, n) && forall m :: n < m ==> !IsInstance(s, m)
  {
    hide DayNumber, FromEpochDay, InstantOn, Lawful, Usable, UntilAllowed, Selected, UnitOf;
    forall m | n < m ensures Beyond(s, m) { InstantsAscend(s, n, m); }
  }

  // Once past UNTIL, always past it, whichever of the three forms it has.
  lemma BeyondIsLasting(s: Series, m: int, n: int)
    requires s.Valid() && StartDay(s) <= m < n && Beyond(s, m)
    ensures Beyond(s, n)
  {
    hide DayNumber, ToEpochDay, LocalOn, InstantOn, UntilAllowed, Lawful, LocalAsUtc;
    UsableOn(s, m);
    UsableOn(s, n);
    InstantsAscend(s, m, n);
  }

  lemma InstanceInWindow(s: Series, from: int, to: int, n: int)
    requires s.Valid()
    ensures n in InstancesIn(s, from, to) <==> IsInstance(s, n) && from <= InstantOn(s, n) < to
  {
    hide InstantOn, Beyond, Selected, UnitOf, EndDay;
    if IsInstance(s, n) && InstantOn(s, n) < to && EndDay(s, to) <= n { PastTheWindow(s, to, n); }
  }

  lemma RankStep(s: Series, m: int, n: int)
    requires s.Valid() && StartDay(s) <= m <= n
    requires forall i :: m <= i < n ==> !Recurs(s, i)
    ensures Rank(s, n) == Rank(s, m)
    ensures Rank(s, n + 1) == Rank(s, n) + (if Recurs(s, n) then 1 else 0)
  {
    hide Recurs, StartDay;
    assert Earlier(s, n) == Earlier(s, m);
    assert Earlier(s, n + 1) == if Recurs(s, n) then Earlier(s, n) + {n} else Earlier(s, n);
  }

  lemma RankGrows(s: Series, m: int, n: int)
    requires s.Valid() && m <= n
    ensures Rank(s, m) <= Rank(s, n)
  {
    hide Recurs, StartDay;
    Subset(Earlier(s, m), Earlier(s, n));
  }

  lemma {:induction false} Subset<T>(a: set<T>, b: set<T>)
    requires a <= b
    ensures |a| <= |b| && (a != b ==> |a| < |b|)
  {
    assert b == a + (b - a);
    if a != b { assert |b - a| > 0; }
  }

  // --- What the walk has listed once every day before `day` is behind it -------------------------------------------

  ghost function DayOf(o: Occurrence): int
    requires Gregorian(o.local.date)
  {
    DayNumber(o.local.date)
  }

  // The list holds exactly these days' occurrences, in strictly ascending order.
  ghost predicate Lists(s: Series, occurrences: seq<Occurrence>, days: set<int>) {
    && (forall i :: 0 <= i < |occurrences| ==>
          && Gregorian(occurrences[i].local.date)
          && DayOf(occurrences[i]) in days
          && occurrences[i] == OccurrenceOn(s, DayOf(occurrences[i])))
    && (forall i, j :: 0 <= i < j < |occurrences| ==> occurrences[i].instant < occurrences[j].instant)
    && (forall n :: n in days ==> OccurrenceOn(s, n) in occurrences)
    && |occurrences| == |days|
  }

  ghost function ListedBefore(s: Series, w: Window, day: int): set<int>
    requires s.Valid()
  {
    set n | n in InstancesIn(s, w.from, w.to) && n < day
  }

  ghost predicate Scanned(s: Series, w: Window, day: int, occurrences: seq<Occurrence>, produced: int)
    requires s.Valid()
  {
    && Lists(s, occurrences, ListedBefore(s, w, day))
    && |occurrences| <= w.limit
    && (s.rule.count.Some? ==> day >= StartDay(s) ==> produced == Rank(s, day))
    && (s.rule.count.Some? ==> day < StartDay(s) ==> produced == 0)
    && (forall n :: n < day && IsInstance(s, n) ==> InstantOn(s, n) < w.to || InstantOn(s, n) < w.from)
  }

  // What a finished walk may return.
  ghost predicate Correct(s: Series, w: Window, r: Expanded)
    requires s.Valid()
  {
    match r
    case Err(RecurrenceTooDense(limit)) => limit == w.limit && |InstancesIn(s, w.from, w.to)| > w.limit
    case Ok(Expansion(occurrences, exhausted)) =>
      && Lists(s, occurrences, InstancesIn(s, w.from, w.to))
      && |occurrences| <= w.limit
      && (exhausted ==> forall n :: IsInstance(s, n) ==> InstantOn(s, n) < w.to || InstantOn(s, n) < w.from)
  }

  lemma ListsGrow(s: Series, occurrences: seq<Occurrence>, days: set<int>, n: int)
    requires s.Valid() && Lists(s, occurrences, days) && n >= StartDay(s)
    requires forall m :: m in days ==> StartDay(s) <= m < n
    ensures Lists(s, occurrences + [OccurrenceOn(s, n)], days + {n})
  {
    hide LocalOn, InstantOn, DayNumber, UntilAllowed, Lawful, MonthLength;
    var o := occurrences + [OccurrenceOn(s, n)];
    assert Gregorian(LocalOn(s, n).date) && DayNumber(LocalOn(s, n).date) == n;
    forall i | 0 <= i < |occurrences| ensures o[i].instant < InstantOn(s, n) {
      InstantsAscend(s, DayOf(o[i]), n);
    }
    forall m | m in days + {n} ensures OccurrenceOn(s, m) in o {
      if m != n { assert OccurrenceOn(s, m) in occurrences; } else { assert o[|occurrences|] == OccurrenceOn(s, n); }
    }
  }

  // Nothing changes over a stretch of days without an instance.
  lemma QuietDays(s: Series, w: Window, day: int, later: int, occurrences: seq<Occurrence>, produced: int)
    requires s.Valid() && day <= later && Scanned(s, w, day, occurrences, produced)
    requires forall n :: day <= n < later ==> !Recurs(s, n)
    ensures Scanned(s, w, later, occurrences, produced)
  {
    hide Lists, Recurs, Beyond, InstantOn, UntilAllowed, Lawful;
    forall n ensures n in ListedBefore(s, w, day) <==> n in ListedBefore(s, w, later) {
      InstanceInWindow(s, w.from, w.to, n);
    }
    assert ListedBefore(s, w, day) == ListedBefore(s, w, later);
    if later >= StartDay(s) {
      var first := if day < StartDay(s) then StartDay(s) else day;
      RankStep(s, first, later);
      NothingBefore(s);
    }
  }

  lemma NothingBefore(s: Series)
    requires s.Valid()
    ensures Rank(s, StartDay(s)) == 0
  {
    hide Recurs;
    assert Earlier(s, StartDay(s)) == {};
  }

  // When no instance from `day` on starts before the window's end, the list is complete.
  lemma Complete(s: Series, w: Window, day: int, occurrences: seq<Occurrence>, produced: int, exhausted: bool)
    requires s.Valid() && Scanned(s, w, day, occurrences, produced)
    requires forall n :: n >= day && IsInstance(s, n) ==> !exhausted && w.to <= InstantOn(s, n)
    ensures Correct(s, w, Ok(Expansion(occurrences, exhausted)))
  {
    hide Lists, IsInstance, InstantOn, UntilAllowed, Lawful;
    forall n ensures n in ListedBefore(s, w, day) <==> n in InstancesIn(s, w.from, w.to) {
      InstanceInWindow(s, w.from, w.to, n);
    }
    assert ListedBefore(s, w, day) == InstancesIn(s, w.from, w.to);
  }

  // --- One candidate -----------------------------------------------------------------------------------------------

  // A candidate before DTSTART is passed over; any other is a day the rule produces.
  lemma CandidateRecurs(s: Series, k: int, d: LocalDate)
    requires s.Valid() && k >= 0 && InPeriod(s.rule, s.dtstart.date, k * s.rule.interval, d)
    ensures Proper(d) && ToEpochDay(d) == DayNumber(d) && FromEpochDay(DayNumber(d)) == d
    ensures DayNumber(d) >= StartDay(s) ==> Recurs(s, DayNumber(d))
    ensures CompareLocalDateTimes(s.dtstart.(date := d), s.dtstart) < 0 <==> DayNumber(d) < StartDay(s)
  {
    hide DayNumber, MonthLength, ToEpochDay, FromEpochDay, UntilAllowed, Lawful, Selected, UnitOf;
    ProperEpoch(d);
    UsableDays(s.dtstart.date);
    RemainderIs(k * s.rule.interval, s.rule.interval, k, 0);
  }

  lemma ScanDateIsCorrect(s: Series, w: Window, k: int, d: LocalDate, occurrences: seq<Occurrence>, produced: int)
    requires s.Valid() && k >= 0 && InPeriod(s.rule, s.dtstart.date, k * s.rule.interval, d)
    requires Scanned(s, w, DayNumber(d), occurrences, produced)
    ensures match ScanDate(s, w, d, occurrences, produced)
            case Going(o, p) => Scanned(s, w, DayNumber(d) + 1, o, p)
            case Stopped(r) => Correct(s, w, r)
  {
    hide Lists, Recurs, Lawful, UntilAllowed, Selected, DayNumber, MonthLength, ToEpochDay, FromEpochDay, UnitOf,
         LocalToInstant, CompareLocalDateTimes, InstancesIn, Earlier, BeyondUntil, Scanned, Correct;
    CandidateRecurs(s, k, d);
    var n := DayNumber(d);
    if n < StartDay(s) {
      PassedOver(s, w, n, occurrences, produced);
    } else {
      assert LocalOn(s, n) == s.dtstart.(date := d);
      BeyondIsTested(s, n);
      ProducedDay(s, w, n, occurrences, produced);
    }
  }

  lemma PassedOver(s: Series, w: Window, n: int, occurrences: seq<Occurrence>, produced: int)
    requires s.Valid() && n < StartDay(s) && Scanned(s, w, n, occurrences, produced)
    ensures Scanned(s, w, n + 1, occurrences, produced)
  {
    hide Lists, Beyond, Lawful, UntilAllowed, Selected, InstantOn, UnitOf;
    QuietDays(s, w, n, n + 1, occurrences, produced);
  }

  // What the body of the inner loop does with the next day the rule produces.
  ghost function Step(s: Series, w: Window, n: int, occurrences: seq<Occurrence>, produced: int): Scan
    requires s.Valid()
  {
    if Beyond(s, n) then Stopped(Ok(Expansion(occurrences, true)))
    else if s.rule.count.Some? && produced + 1 > s.rule.count.value then Stopped(Ok(Expansion(occurrences, true)))
    else if InstantOn(s, n) >= w.to then Stopped(Ok(Expansion(occurrences, false)))
    else if InstantOn(s, n) < w.from then Going(occurrences, produced + 1)
    else if |occurrences| + 1 > w.limit then Stopped(Err(RecurrenceTooDense(w.limit)))
    else Going(occurrences + [OccurrenceOn(s, n)], produced + 1)
  }

  lemma ProducedDay(s: Series, w: Window, n: int, occurrences: seq<Occurrence>, produced: int)
    requires s.Valid() && Recurs(s, n) && Scanned(s, w, n, occurrences, produced)
    ensures match Step(s, w, n, occurrences, produced)
            case Going(o, p) => Scanned(s, w, n + 1, o, p)
            case Stopped(r) => Correct(s, w, r)
  {
    hide Lists, Beyond, Lawful, UntilAllowed, Selected, InstantOn, LocalOn, Rank, UnitOf, InstancesIn, Correct,
         ListedBefore, IsInstance;
    LaterDays(s, w, n);
    if Beyond(s, n) || (s.rule.count.Some? && produced + 1 > s.rule.count.value) {
      Complete(s, w, n, occurrences, produced, true);
    } else if InstantOn(s, n) >= w.to {
      Complete(s, w, n, occurrences, produced, false);
    } else {
      ListedDay(s, w, n, occurrences, produced);
    }
  }

  lemma ListedDay(s: Series, w: Window, n: int, occurrences: seq<Occurrence>, produced: int)
    requires s.Valid() && Recurs(s, n) && Scanned(s, w, n, occurrences, produced)
    requires !Beyond(s, n) && (s.rule.count.Some? ==> Rank(s, n) < s.rule.count.value) && InstantOn(s, n) < w.to
    ensures InstantOn(s, n) < w.from ==> Scanned(s, w, n + 1, occurrences, produced + 1)
    ensures InstantOn(s, n) >= w.from && |occurrences| + 1 <= w.limit ==>
              Scanned(s, w, n + 1, occurrences + [OccurrenceOn(s, n)], produced + 1)
    ensures InstantOn(s, n) >= w.from && |occurrences| + 1 > w.limit ==> Correct(s, w, Err(RecurrenceTooDense(w.limit)))
  {
    hide Lists, Beyond, Lawful, UntilAllowed, Selected, InstantOn, LocalOn, Rank, UnitOf, InstancesIn, Recurs,
         IsInstance;
    RecursFromStart(s, w, n);
    RankStep(s, n, n);
    OneMoreDay(s, w, n);
    if InstantOn(s, n) >= w.from {
      ListsGrow(s, occurrences, ListedBefore(s, w, n), n);
      ListIsSized(s, occurrences, ListedBefore(s, w, n));
      Subset(ListedBefore(s, w, n + 1), InstancesIn(s, w.from, w.to));
    }
  }

  lemma RecursFromStart(s: Series, w: Window, n: int)
    requires s.Valid() && Recurs(s, n)
    ensures n >= StartDay(s)
    ensures forall m :: m in ListedBefore(s, w, n) ==> StartDay(s) <= m < n
  {}

  lemma ListIsSized(s: Series, occurrences: seq<Occurrence>, days: set<int>)
    requires Lists(s, occurrences, days)
    ensures |occurrences| == |days|
  {}

  // From a day on: past UNTIL, past COUNT and past the window each last.
  lemma LaterDays(s: Series, w: Window, n: int)
    requires s.Valid() && Recurs(s, n)
    ensures Beyond(s, n) ==> forall m :: m >= n ==> !IsInstance(s, m)
    ensures s.rule.count.Some? && Rank(s, n) >= s.rule.count.value ==> forall m :: m >= n ==> !IsInstance(s, m)
    ensures InstantOn(s, n) >= w.to ==> forall m :: m >= n && IsInstance(s, m) ==> InstantOn(s, m) >= w.to
  {
    hide Beyond, Lawful, UntilAllowed, InstantOn, Rank, Recurs, IsInstance;
    forall m | m >= n && IsInstance(s, m)
      ensures !Beyond(s, n) && !(s.rule.count.Some? && Rank(s, n) >= s.rule.count.value)
      ensures InstantOn(s, n) <= InstantOn(s, m)
    {
      LaterDay(s, n, m);
    }
  }

  lemma LaterDay(s: Series, n: int, m: int)
    requires s.Valid() && n <= m && Recurs(s, n) && IsInstance(s, m)
    ensures !Beyond(s, n) && !(s.rule.count.Some? && Rank(s, n) >= s.rule.count.value)
    ensures InstantOn(s, n) <= InstantOn(s, m)
  {
    hide Beyond, Lawful, UntilAllowed, Selected, InstantOn, UnitOf, Rank;
    if n < m {
      if Beyond(s, n) { BeyondIsLasting(s, n, m); }
      RankGrows(s, n, m);
      InstantsAscend(s, n, m);
    }
  }

  lemma OneMoreDay(s: Series, w: Window, n: int)
    requires s.Valid() && Recurs(s, n) && InstantOn(s, n) < w.to
    requires !Beyond(s, n) && (s.rule.count.Some? ==> Rank(s, n) < s.rule.count.value)
    ensures ListedBefore(s, w, n + 1) ==
            if InstantOn(s, n) >= w.from then ListedBefore(s, w, n) + {n} else ListedBefore(s, w, n)
  {
    hide Beyond, Lawful, UntilAllowed, Selected, InstantOn, UnitOf, Rank, InstancesIn;
    InstanceInWindow(s, w.from, w.to, n);
    forall m
      ensures m in ListedBefore(s, w, n + 1) <==> m in ListedBefore(s, w, n) || (m == n && InstantOn(s, n) >= w.from)
    {}
  }

  // --- One period, and all of them ---------------------------------------------------------------------------------

  ghost function PeriodDay(s: Series, k: int): int
    requires s.Valid()
  {
    UnitStart(s.rule, UnitOf(s.rule, StartDay(s)) + k * s.rule.interval)
  }

  // The candidates still to come in period k, once the days before `day` are behind.
  ghost predicate Remaining(s: Series, k: int, dates: seq<LocalDate>, day: int)
    requires s.Valid() && Months(dates)
  {
    && Ascending(dates)
    && (forall i :: 0 <= i < |dates| ==>
          InPeriod(s.rule, s.dtstart.date, k * s.rule.interval, dates[i])
            && day <= DayNumber(dates[i]) < PeriodDay(s, k + 1))
    && (forall n :: day <= n < PeriodDay(s, k + 1) && Recurs(s, n) ==> FromEpochDay(n) in dates)
  }

  lemma NextCandidate(s: Series, k: int, dates: seq<LocalDate>, day: int)
    requires s.Valid() && k >= 0 && Months(dates) && dates != [] && Remaining(s, k, dates, day)
    ensures day <= DayNumber(dates[0]) && forall n :: day <= n < DayNumber(dates[0]) ==> !Recurs(s, n)
    ensures Remaining(s, k, dates[1..], DayNumber(dates[0]) + 1)
  {
    hide Recurs, Lawful, UntilAllowed, Selected, MonthLength, DayNumber, ToEpochDay, FromEpochDay, UnitOf, UnitStart,
         PeriodDay;
    var first := DayNumber(dates[0]);
    forall i | 0 <= i < |dates| ensures ToEpochDay(dates[i]) == DayNumber(dates[i]) { ProperEpoch(dates[i]); }
    forall n | day <= n < PeriodDay(s, k + 1) && Recurs(s, n)
      ensures n >= first && (n > first ==> FromEpochDay(n) in dates[1..])
    {
      var i :| 0 <= i < |dates| && dates[i] == FromEpochDay(n);
      assert ToEpochDay(dates[0]) <= ToEpochDay(dates[i]);
      if i > 0 { assert dates[1..][i - 1] == dates[i]; }
    }
  }

  lemma {:induction false} ScanDatesIsCorrect(
    s: Series, w: Window, k: int, dates: seq<LocalDate>, day: int, occurrences: seq<Occurrence>, produced: int)
    requires s.Valid() && k >= 0 && Months(dates) && Remaining(s, k, dates, day) && day <= PeriodDay(s, k + 1)
    requires Scanned(s, w, day, occurrences, produced)
    ensures match ScanDates(s, w, dates, occurrences, produced)
            case Going(o, p) => Scanned(s, w, PeriodDay(s, k + 1), o, p)
            case Stopped(r) => Correct(s, w, r)
  {
    hide Recurs, Lawful, UntilAllowed, Selected, MonthLength, DayNumber, ToEpochDay, FromEpochDay, UnitOf, PeriodDay,
         ScanDate, Scanned, Correct;
    if dates == [] {
      QuietDays(s, w, day, PeriodDay(s, k + 1), occurrences, produced);
    } else {
      NextCandidate(s, k, dates, day);
      QuietDays(s, w, day, DayNumber(dates[0]), occurrences, produced);
      ScanDateIsCorrect(s, w, k, dates[0], occurrences, produced);
      match ScanDate(s, w, dates[0], occurrences, produced)
      case Stopped(_) =>
      case Going(o, p) => ScanDatesIsCorrect(s, w, k, dates[1..], DayNumber(dates[0]) + 1, o, p);
    }
  }

  // A day of the series lies in a period that is a whole number of intervals on, so in one the walk visits.
  lemma PeriodOfDay(s: Series, k: int, n: int)
    requires s.Valid() && k >= 0 && Recurs(s, n) && PeriodDay(s, k) <= n < PeriodDay(s, k + 1)
    ensures InPeriod(s.rule, s.dtstart.date, k * s.rule.interval, FromEpochDay(n))
  {
    hide Lawful, UntilAllowed, Selected, MonthLength, DayNumber, ToEpochDay, FromEpochDay, UnitOf, UnitStart;
    var u, i := UnitOf(s.rule, StartDay(s)), s.rule.interval;
    NextMultiple(k, i);
    UnitsAreBlocks(s.rule, u + k * i, n);
    UnitsAreBlocks(s.rule, u + (k + 1) * i, n);
    UsableDays(s.dtstart.date);
    ProperDays(FromEpochDay(n));
    OnlyMultiple(UnitOf(s.rule, n) - u, k, i);
  }

  lemma OnlyMultiple(a: int, k: int, i: int)
    requires i >= 1 && a % i == 0 && k * i <= a < k * i + i
    ensures a == k * i
  {
    RemainderIs(a, i, k, a - k * i);
  }

  lemma PeriodRemains(s: Series, k: int)
    requires s.Valid() && k >= 0
    ensures Remaining(s, k, CandidatesForPeriod(s.rule, s.dtstart.date, k), PeriodDay(s, k))
    ensures PeriodDay(s, k) <= PeriodDay(s, k + 1)
  {
    hide Lawful, UntilAllowed, Selected, MonthLength, DayNumber, ToEpochDay, FromEpochDay, UnitOf, UnitStart,
         CandidatesForPeriod, Recurs, Ascending;
    var dates := CandidatesForPeriod(s.rule, s.dtstart.date, k);
    CandidatesExact(s.rule, s.dtstart.date, k);
    forall i | 0 <= i < |dates|
      ensures InPeriod(s.rule, s.dtstart.date, k * s.rule.interval, dates[i])
      ensures PeriodDay(s, k) <= DayNumber(dates[i]) < PeriodDay(s, k + 1)
    {
      assert dates[i] in dates;
      PeriodDays(s, k, dates[i]);
    }
    forall n | PeriodDay(s, k) <= n < PeriodDay(s, k + 1) && Recurs(s, n) ensures FromEpochDay(n) in dates {
      PeriodOfDay(s, k, n);
    }
    PeriodsAscend(s, k, k + 1);
  }

  lemma PeriodDays(s: Series, k: int, d: LocalDate)
    requires s.Valid() && InPeriod(s.rule, s.dtstart.date, k * s.rule.interval, d)
    ensures PeriodDay(s, k) <= DayNumber(d) < PeriodDay(s, k + 1)
  {
    hide Lawful, UntilAllowed, Selected, MonthLength, DayNumber, ToEpochDay, FromEpochDay, UnitOf, UnitStart;
    var u, i := UnitOf(s.rule, StartDay(s)), s.rule.interval;
    NextMultiple(k, i);
    UnitsAreBlocks(s.rule, u + k * i, DayNumber(d));
    UnitsAreBlocks(s.rule, u + (k + 1) * i, DayNumber(d));
  }

  lemma PeriodsAscend(s: Series, j: int, k: int)
    requires s.Valid() && j <= k
    ensures PeriodDay(s, j) <= PeriodDay(s, k)
  {
    hide Lawful, UntilAllowed, UnitStart, UnitOf, Usable;
    var u, i := UnitOf(s.rule, StartDay(s)), s.rule.interval;
    Ordered(j, k, i);
    UnitsAreBlocks(s.rule, u + k * i, PeriodDay(s, k));
    UnitsAreBlocks(s.rule, u + j * i, PeriodDay(s, k));
  }

  lemma Ordered(j: int, k: int, i: int)
    requires j <= k && i >= 1
    ensures j * i <= k * i
  {
    Multiples(i, k - j);
    assert k * i - j * i == (k - j) * i;
  }

  // The cutoff: a period that starts after the day that follows the window's last local date has nothing to add.
  lemma CutoffIsSafe(s: Series, w: Window, k: int, occurrences: seq<Occurrence>, produced: int)
    requires s.Valid() && k >= 0 && Scanned(s, w, PeriodDay(s, k), occurrences, produced)
    requires CompareLocalDates(PeriodStart(s.rule, s.dtstart.date, k), LastDate(s, w)) > 0
    ensures Correct(s, w, Ok(Expansion(occurrences, false)))
  {
    hide Scanned, Correct, Lawful, UntilAllowed, Selected, Recurs, UnitOf, UnitStart, InstantOn, PeriodStart, LastDate,
         CompareLocalDates;
    CutoffIsLate(s, w, k);
    forall n | n >= PeriodDay(s, k) && IsInstance(s, n) ensures w.to <= InstantOn(s, n) {
      RecursFromStart(s, w, n);
      PastTheWindow(s, w.to, n);
    }
    Complete(s, w, PeriodDay(s, k), occurrences, produced, false);
  }

  lemma CutoffIsLate(s: Series, w: Window, k: int)
    requires s.Valid() && k >= 0
    requires CompareLocalDates(PeriodStart(s.rule, s.dtstart.date, k), LastDate(s, w)) > 0
    ensures EndDay(s, w.to) <= PeriodDay(s, k)
  {
    hide Lawful, UntilAllowed, MonthLength, DayNumber, ToEpochDay, FromEpochDay, UnitOf, UnitStart, PeriodStart;
    PeriodStartIs(s.rule, s.dtstart.date, k);
    var date := InstantToLocal(w.to, s.zone).date;
    QuirkIsOneDay(date);
    QuirkIsOneDay(LastDate(s, w));
    ClockDate(w.to, s.zone);
  }

  lemma ClockDate(t: int, z: Zone)
    ensures DayNumber(InstantToLocal(t, z).date) == Reading(t, z) / DAY
  {
    hide DayNumber, FromEpochDay, MonthLength;
  }

  lemma {:induction false} ScanPeriodsIsCorrect(
    s: Series, w: Window, k: int, end: int, occurrences: seq<Occurrence>, produced: int) returns (last: int)
    requires s.Valid() && s.Parsed() && 0 <= k <= end && Scanned(s, w, PeriodDay(s, k), occurrences, produced)
    ensures match ScanPeriods(s, w, k, end, occurrences, produced)
            case Finished(r) => Correct(s, w, r)
            case OutOfPeriods(o) => Scanned(s, w, PeriodDay(s, end), o, last)
    decreases end - k
  {
    hide Scanned, Correct, Lawful, UntilAllowed, ScanDates, CandidatesForPeriod, PeriodStart, LastDate,
         CompareLocalDates, PeriodDay, Remaining, Usable;
    last := produced;
    if k < end {
      if CompareLocalDates(PeriodStart(s.rule, s.dtstart.date, k), LastDate(s, w)) > 0 {
        CutoffIsSafe(s, w, k, occurrences, produced);
      } else {
        var dates := CandidatesForPeriod(s.rule, s.dtstart.date, k);
        PeriodRemains(s, k);
        ScanDatesIsCorrect(s, w, k, dates, PeriodDay(s, k), occurrences, produced);
        match ScanDates(s, w, dates, occurrences, produced)
        case Stopped(_) =>
        case Going(o, p) => last := ScanPeriodsIsCorrect(s, w, k + 1, end, o, p);
      }
    }
  }

  // --- Skipping ahead ----------------------------------------------------------------------------------------------

  lemma EarlyWeek(start: LocalDate, d: LocalDate, wkst: Weekday)
    requires PeriodExact.Start(start) && Gregorian(d) && d.year < 1
    ensures ToEpochDay(StartOfWeek(d, wkst)) <= ToEpochDay(StartOfWeek(start, wkst))
  {
    hide MonthLength, DayNumber, ToEpochDay, StartOfWeek, WeekdayIndex, WeekdayOfDay;
    UsableIsLate(start);
    UsableDays(start);
    UsableDays(d);
    QuirkIsOneDay(d);
    var v := StartOfWeekIs(start, wkst);
    StartOfWeekDay(d, wkst);
    QuirkIsOneDay(StartOfWeek(d, wkst));
    ProperDays(StartOfWeek(d, wkst));
    QuirkDay();
    ProperEpoch(start);
    assert (ToEpochDay(d) + 3 - WeekdayIndex(wkst)) / 7 <= (DayNumber(start) + 3 - WeekdayIndex(wkst)) / 7;
  }

  // A window that starts before year 1 skips nothing.
  lemma EarlyWindow(r: Rule, start: LocalDate, d: LocalDate)
    requires WellFormed(r) && PeriodExact.Start(start) && Gregorian(d) && d.year < 1
    ensures PeriodsBetween(r, start, d) <= 0
  {
    hide MonthLength, DayNumber, ToEpochDay, StartOfWeek, UntilAllowed;
    match r.freq
    case Daily =>
      UsableDays(start);
      UsableDays(d);
      QuirkIsOneDay(d);
      NotPositive(ToEpochDay(d) - ToEpochDay(start), r.interval);
    case Weekly =>
      EarlyWeek(start, d, r.wkst);
      NotPositive(ToEpochDay(StartOfWeek(d, r.wkst)) - ToEpochDay(StartOfWeek(start, r.wkst)), 7 * r.interval);
    case Monthly => NotPositive(d.year * 12 + d.month - (start.year * 12 + start.month), r.interval);
    case Yearly => NotPositive(d.year - start.year, r.interval);
  }

  lemma NotPositive(a: int, i: int)
    requires a <= 0 && i >= 1
    ensures a / i <= 0
  {
    Multiples(i, a / i);
  }

  lemma SkippedPeriodsAreEarly(s: Series, w: Window)
    requires s.Valid() && s.Parsed() && FirstPeriod(s, w) > 0
    ensures PeriodDay(s, FirstPeriod(s, w)) + 2 <= Reading(w.from, s.zone) / DAY
  {
    hide MonthLength, DayNumber, ToEpochDay, FromEpochDay, UntilAllowed, Lawful, UnitOf, UnitStart, PeriodsBetween;
    var r, start := s.rule, s.dtstart.date;
    var local := InstantToLocal(w.from, s.zone).date;
    var d := AddDays(local, -2);
    if d.year < 1 {
      EarlyWindow(r, start, d);
      assert false;
    }
    UsableDays(d);
    LateDay(d);
    ClockDate(w.from, s.zone);
    QuirkIsOneDay(local);
    QuirkDay();
    PeriodsBetweenIs(r, start, d);
    var k := FirstPeriod(s, w);
    WholeIntervals(UnitOf(r, DayNumber(d)) - UnitOf(r, StartDay(s)), k, r.interval);
    UnitsAreBlocks(r, UnitOf(r, StartDay(s)) + k * r.interval, DayNumber(d));
  }

  lemma LateDay(d: LocalDate)
    requires PeriodExact.Start(d)
    ensures DayNumber(d) >= FIRST_PROPER_DAY + 6
  {
    UsableIsLate(d);
  }

  lemma QuirkDay()
    ensures Gregorian(QUIRK) && DayNumber(QUIRK) + 1 == FIRST_PROPER_DAY
  {}

  lemma WholeIntervals(a: int, k: int, i: int)
    requires i >= 1 && k == a / i - 1
    ensures k * i <= a
  {
    Ordered(k, a / i, i);
  }

  lemma StartOfWalk(s: Series, w: Window)
    requires s.Valid() && s.Parsed() && w.limit >= 0
    ensures Scanned(s, w, PeriodDay(s, FirstPeriod(s, w)), [], 0)
  {
    hide Lawful, UntilAllowed, Selected, UnitOf, UnitStart, InstantOn, FirstPeriod, LocalOn, Beyond;
    var k := FirstPeriod(s, w);
    var day := PeriodDay(s, k);
    if k > 0 { SkippedPeriodsAreEarly(s, w); } else { FirstPeriodStart(s); }
    CountedFromZero(s, w);
    NothingBefore(s);
    forall n | StartDay(s) <= n < day ensures InstantOn(s, n) < w.from {
      BeforeTheWindow(s, w.from, n);
    }
    assert ListedBefore(s, w, day) == {};
  }

  lemma CountedFromZero(s: Series, w: Window)
    requires s.Valid() && s.Parsed()
    ensures s.rule.count.Some? ==> FirstPeriod(s, w) == 0
  {}

  lemma FirstPeriodStart(s: Series)
    requires s.Valid()
    ensures PeriodDay(s, 0) <= StartDay(s)
  {
    UnitsAreBlocks(s.rule, UnitOf(s.rule, StartDay(s)), StartDay(s));
  }

  // --- The theorems ------------------------------------------------------------------------------------------------

  // A walk that does not hit the guard on the number of periods returns exactly the instances in the window, or errs
  // because there are more of them than the limit; and reports exhaustion only when none is left at or past the end.
  lemma WalkIsExact(s: Series, w: Window)
    requires s.Valid() && s.Parsed() && w.limit >= 0 && Walk(s, w).Finished?
    ensures match Walk(s, w).Result()
            case Ok(e) =>
              && Lists(s, e.occurrences, InstancesIn(s, w.from, w.to))
              && |InstancesIn(s, w.from, w.to)| <= w.limit
              && (e.exhausted ==> forall n :: IsInstance(s, n) ==> InstantOn(s, n) < w.to || InstantOn(s, n) < w.from)
            case Err(RecurrenceTooDense(limit)) => limit == w.limit < |InstancesIn(s, w.from, w.to)|
  {
    hide Lists, Lawful, UntilAllowed, ScanPeriods, Usable, IsInstance, InstantOn, InstancesIn, FirstPeriod;
    var first := FirstPeriod(s, w);
    StartOfWalk(s, w);
    var _ := ScanPeriodsIsCorrect(s, w, first, first + MAX_PERIODS, [], 0);
    match Walk(s, w).Result()
    case Ok(e) => ListIsSized(s, e.occurrences, InstancesIn(s, w.from, w.to));
    case Err(_) =>
  }

  // A walk the guard cuts short has listed the window's instances up to the period it stopped at, and no others.
  lemma CutShortIsSound(s: Series, w: Window)
    requires s.Valid() && s.Parsed() && w.limit >= 0 && Walk(s, w).OutOfPeriods?
    ensures Lists(s, Walk(s, w).occurrences, ListedBefore(s, w, PeriodDay(s, FirstPeriod(s, w) + MAX_PERIODS)))
    ensures |Walk(s, w).occurrences| <= w.limit
  {
    hide Lists, Lawful, UntilAllowed, ScanPeriods, Usable, IsInstance, InstantOn, InstancesIn, FirstPeriod;
    var first := FirstPeriod(s, w);
    StartOfWalk(s, w);
    var _ := ScanPeriodsIsCorrect(s, w, first, first + MAX_PERIODS, [], 0);
  }
}
