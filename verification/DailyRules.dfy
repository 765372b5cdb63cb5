// The every-day rule: what it schedules, and where the search for its next occurrence refuses or misses a date.
module DailyRules {
  import opened Prelude
  import opened CivilDate
  import opened ZonedTime
  import opened Rules
  import opened Expand
  import opened ExpandExact
  import opened RecurrenceSet
  import opened WalkEnds
  import opened NextOccurrence

  ghost predicate EveryDay(r: Rule) {
    r.freq.Daily? && r.interval == 1 && r.until.None? && r.byDay == [] && r.byMonthDay == [] && r.byMonth == []
  }

  lemma EveryDayRecurs(s: Series, n: int)
    requires s.Valid() && EveryDay(s.rule) && n >= StartDay(s)
    ensures Recurs(s, n) && !Beyond(s, n)
  {
    hide DayNumber, FromEpochDay, MonthLength, Lawful, Usable, UntilAllowed, InstantOn;
  }

  lemma {:induction false} EveryDayRanks(s: Series, n: int)
    requires s.Valid() && EveryDay(s.rule) && n >= StartDay(s)
    ensures Rank(s, n) == n - StartDay(s)
    decreases n - StartDay(s)
  {
    hide Recurs, Lawful, Usable, UntilAllowed, Rank, EveryDay, StartDay;
    if n == StartDay(s) {
      NothingBefore(s);
    } else {
      EveryDayRanks(s, n - 1);
      EveryDayRecurs(s, n - 1);
      RankStep(s, n - 1, n - 1);
    }
  }

  lemma EveryDayInstances(s: Series, n: int)
    requires s.Valid() && EveryDay(s.rule)
    ensures IsInstance(s, n) <==>
            n >= StartDay(s) && (s.rule.count.Some? ==> n - StartDay(s) < s.rule.count.value)
  {
    hide Beyond, Lawful, Usable, UntilAllowed, Rank, EveryDay, Selected, UnitOf;
    if n >= StartDay(s) {
      EveryDayRecurs(s, n);
      EveryDayRanks(s, n);
    }
  }

  // Consecutive local midnights are at most three days apart, whatever the clock does.
  lemma InstantsAreNear(s: Series, n: int)
    requires s.Valid() && n >= StartDay(s)
    ensures InstantOn(s, n + 1) <= InstantOn(s, n) + 3 * MS_PER_DAY
  {
    hide InstantOn, LocalOn, Resolve, UntilAllowed, WellFormed, Usable, DayNumber;
    UsableOn(s, n);
    UsableOn(s, n + 1);
    ResolvesNear(DAY * n + SecondOfDay(s.dtstart), s.zone);
    ResolvesNear(DAY * (n + 1) + SecondOfDay(s.dtstart), s.zone);
  }

  lemma ResolvesNear(p: int, z: Zone)
    requires Lawful(z)
    ensures p - DAY < Resolve(p, z) < p + DAY
  {}

  lemma EveryDaySpan(r: Rule)
    requires EveryDay(r)
    ensures InitialSpanDays(r) == 2 && UnitDays(r.freq) == r.interval == 1
  {}

  // --- A date the search refuses -----------------------------------------------------------------------------------

  // A window holds more than the limit if and only if it holds the date a thousand days after its first.
  lemma WindowIsDenseIff(s: Series, after: int, n: int, w: Window)
    requires s.Valid() && EveryDay(s.rule) && FallsFirst(s, after, n) && after < w.from <= InstantOn(s, n) < w.to
    ensures |ReachedIn(s, w.from, w.to)| > MAX_OCCURRENCES <==> n + MAX_OCCURRENCES in ReachedIn(s, w.from, w.to)
  {
    hide InstantOn, IsInstance, InReach, Lawful, UntilAllowed, Usable, EveryDay, ReachedIn, WellFormed, StartDay;
    var held := ReachedIn(s, w.from, w.to);
    if n + MAX_OCCURRENCES in held {
      forall m | n <= m <= n + MAX_OCCURRENCES ensures m in held { HeldBetween(s, w, n, m, n + MAX_OCCURRENCES); }
      var many: nat := MAX_OCCURRENCES + 1;
      DaysAreMany(n, many);
      Subset(Days(n, many), held);
    } else {
      forall m | m in held ensures n <= m < n + MAX_OCCURRENCES { HeldAfter(s, after, w, n, m); }
      var many: nat := MAX_OCCURRENCES;
      DaysAreMany(n, many);
      Subset(held, Days(n, many));
    }
  }

  lemma HeldBetween(s: Series, w: Window, n: int, m: int, last: int)
    requires s.Valid() && EveryDay(s.rule) && IsInstance(s, n) && w.from <= InstantOn(s, n)
    requires n <= m <= last && last in ReachedIn(s, w.from, w.to)
    ensures m in ReachedIn(s, w.from, w.to)
  {
    hide InstantOn, IsInstance, Lawful, UntilAllowed, Usable, EveryDay, ReachedIn, WellFormed, StartDay, PeriodDay;
    EveryDayInstances(s, n);
    EveryDayInstances(s, m);
    EveryDayInstances(s, last);
    ReachedInWindow(s, w.from, w.to, last);
    ReachedInWindow(s, w.from, w.to, m);
    if n < m { InstantsAscend(s, n, m); }
    if m < last { InstantsAscend(s, m, last); }
  }

  lemma HeldAfter(s: Series, after: int, w: Window, n: int, m: int)
    requires s.Valid() && EveryDay(s.rule) && FallsFirst(s, after, n) && after < w.from <= InstantOn(s, n)
    requires m in ReachedIn(s, w.from, w.to) && n + MAX_OCCURRENCES !in ReachedIn(s, w.from, w.to)
    ensures n <= m < n + MAX_OCCURRENCES
  {
    hide InstantOn, IsInstance, InReach, Lawful, UntilAllowed, Usable, EveryDay, ReachedIn, WellFormed, StartDay;
    ReachedInWindow(s, w.from, w.to, m);
    EveryDayInstances(s, m);
    EveryDayInstances(s, n);
    if m < n { InstantsAscend(s, m, n); }
    if n + MAX_OCCURRENCES <= m { HeldBetween(s, w, n, n + MAX_OCCURRENCES, m); }
  }

  // The search for a daily rule is refused exactly when the window its next date lies in also holds the date a thousand
  // days later.
  lemma EveryDayIsRefusedIff(s: Series, after: int, n: int)
    requires s.Valid() && s.Parsed() && EveryDay(s.rule) && FallsFirst(s, after, n)
    ensures SearchAfter(s, after).Result() == Err(RecurrenceTooDense(MAX_OCCURRENCES))
            <==> match Rung(after + 1, InitialSpanDays(s.rule), MAX_STEPS, InstantOn(s, n))
                 case None => false
                 case Some(w) => n + MAX_OCCURRENCES in ReachedIn(s, w.from, w.to)
  {
    hide InstantOn, IsInstance, Lawful, UntilAllowed, Usable, EveryDay, ReachedIn, WellFormed, SearchAfter, FallsFirst,
         Rung, PeriodDay;
    var span, steps := InitialSpanDays(s.rule), MAX_STEPS;
    EveryDaySpan(s.rule);
    SearchFindsIff(s, after, n);
    RungIsShort(after + 1, after + 1, span, span, steps, InstantOn(s, n));
    match Rung(after + 1, span, steps, InstantOn(s, n)) {
      case None =>
      case Some(w) =>
        RungStartsLater(after + 1, span, steps, InstantOn(s, n));
        FirstIsLater(s, after, n);
        WindowIsDenseIff(s, after, n, w);
        ReachedInWindow(s, w.from, w.to, n + MAX_OCCURRENCES);
    }
  }

  lemma FirstIsLater(s: Series, after: int, n: int)
    requires s.Valid() && FallsFirst(s, after, n)
    ensures IsInstance(s, n) && after < InstantOn(s, n)
  {}

  lemma {:induction false} RungStartsLater(from: int, spanDays: int, steps: int, t: int)
    requires 0 <= spanDays
    ensures match Rung(from, spanDays, steps, t) case None => true case Some(w) => from <= w.from
    decreases steps
  {
    if steps > 0 && from + spanDays * MS_PER_DAY <= t {
      RungStartsLater(from + spanDays * MS_PER_DAY, NextSpan(spanDays), steps - 1, t);
    }
  }

  // An instant far ahead is past the windows that still double.
  lemma {:induction false} PastTheDoublings(from: int, spanDays: int, steps: int, doublings: nat, t: int)
    requires 0 < spanDays && spanDays * Pow2(doublings) <= MAX_SPAN_DAYS && doublings < steps
    requires from + spanDays * (Pow2(doublings) - 1) * MS_PER_DAY <= t
    ensures Rung(from, spanDays, steps, t)
            == Rung(from + spanDays * (Pow2(doublings) - 1) * MS_PER_DAY, spanDays * Pow2(doublings),
                    steps - doublings, t)
    decreases doublings
  {
    if doublings > 0 {
      var rest := Pow2(doublings - 1);
      AtLeastOne(doublings - 1);
      Spread(spanDays, rest);
      PastTheDoublings(from + spanDays * MS_PER_DAY, NextSpan(spanDays), steps - 1, doublings - 1, t);
    }
  }

  lemma Spread(span: int, rest: int)
    requires span > 0 && rest >= 1
    ensures span * (2 * rest) == span * 2 * rest >= span * 2
    ensures span * (2 * rest - 1) == span + span * 2 * (rest - 1) >= span
  {}

  // A daily series that starts some three years after the instant: the search has come to a window of 1024 days when it
  // meets the first date, and is refused.
  lemma LateStartIsRefused(s: Series, after: int)
    requires s.Valid() && s.Parsed() && EveryDay(s.rule)
    requires s.rule.count.Some? ==> s.rule.count.value > MAX_OCCURRENCES
    requires 1022 * MS_PER_DAY < InstantOn(s, StartDay(s)) - after <= 1044 * MS_PER_DAY
    ensures FallsFirst(s, after, StartDay(s)) && InReach(s, StartDay(s))
    ensures SearchAfter(s, after).Result() == Err(RecurrenceTooDense(MAX_OCCURRENCES))
  {
    hide InstantOn, IsInstance, Lawful, UntilAllowed, Usable, EveryDay, ReachedIn, WellFormed, SearchAfter, Rung,
         PeriodDay, StartDay, InReach;
    var n := StartDay(s);
    FirstDayFallsFirst(s, after);
    ReachIsCenturies(s, n);
    ReachIsCenturies(s, n + MAX_OCCURRENCES);
    EveryDaySpan(s.rule);
    LongWait(after + 1, InstantOn(s, n));
    var w := StepWindow(after + 1 + 1022 * MS_PER_DAY, 1024);
    InstantsStayNear(s, n, MAX_OCCURRENCES);
    EveryDayInstances(s, n + MAX_OCCURRENCES);
    InstantsAscend(s, n, n + MAX_OCCURRENCES);
    ReachedInWindow(s, w.from, w.to, n + MAX_OCCURRENCES);
    EveryDayIsRefusedIff(s, after, n);
  }

  lemma FirstDayFallsFirst(s: Series, after: int)
    requires s.Valid() && EveryDay(s.rule) && (s.rule.count.Some? ==> s.rule.count.value > 0)
    requires after < InstantOn(s, StartDay(s))
    ensures FallsFirst(s, after, StartDay(s))
  {
    hide InstantOn, IsInstance, Lawful, UntilAllowed, Usable, EveryDay, WellFormed, StartDay;
    EveryDayInstances(s, StartDay(s));
    forall m | IsInstance(s, m) ensures InstantOn(s, StartDay(s)) <= InstantOn(s, m) {
      EveryDayInstances(s, m);
      if StartDay(s) < m { InstantsAscend(s, StartDay(s), m); }
    }
  }

  lemma LongWait(from: int, t: int)
    requires from + 1022 * MS_PER_DAY <= t < from + 2046 * MS_PER_DAY
    ensures Rung(from, 2, MAX_STEPS, t) == Some(StepWindow(from + 1022 * MS_PER_DAY, 1024))
  {
    var span, steps, doublings: nat := 2, MAX_STEPS, 9;
    NineDoublings();
    PastTheDoublings(from, span, steps, doublings, t);
    RungHolds(from + 1022 * MS_PER_DAY, 1024, steps - doublings, t);
  }

  lemma NineDoublings()
    ensures Pow2(9) == 512
  {
    assert Pow2(5) == 32;
  }

  lemma RungHolds(from: int, spanDays: int, steps: int, t: int)
    requires steps > 0 && from <= t < from + spanDays * MS_PER_DAY
    ensures Rung(from, spanDays, steps, t) == Some(StepWindow(from, spanDays))
  {}

  lemma InstantsStayNear(s: Series, n: int, days: nat)
    requires s.Valid() && n >= StartDay(s)
    ensures InstantOn(s, n + days) < InstantOn(s, n) + (days + 2) * MS_PER_DAY
  {
    hide InstantOn, LocalOn, Resolve, UntilAllowed, WellFormed, Usable, DayNumber;
    UsableOn(s, n);
    UsableOn(s, n + days);
    ResolvesNear(DAY * n + SecondOfDay(s.dtstart), s.zone);
    ResolvesNear(DAY * (n + days) + SecondOfDay(s.dtstart), s.zone);
  }

  // --- A date the search misses ------------------------------------------------------------------------------------

  // Day by day, a rule with COUNT is walked for as many days as there are periods. A date past them is missed though it
  // comes three days later at most, and the search's first windows hold it.
  lemma CountOutrunsTheSearch(s: Series, n: int)
    requires s.Valid() && s.Parsed() && EveryDay(s.rule) && s.rule.count.Some?
    requires MAX_PERIODS <= n - StartDay(s) < s.rule.count.value
    ensures var after := InstantOn(s, n - 1);
            && FallsFirst(s, after, n) && !InReach(s, n) && InstantOn(s, n) <= after + 3 * MS_PER_DAY
            && Rung(after + 1, InitialSpanDays(s.rule), MAX_STEPS, InstantOn(s, n)).Some?
            && SearchAfter(s, after).Result() == Ok(None)
  {
    hide InstantOn, IsInstance, Lawful, UntilAllowed, Usable, WellFormed, SearchAfter, Rung, StartDay, EveryDay,
         FallsFirst, InReach, ReachedIn;
    var after := InstantOn(s, n - 1);
    InstantsAscend(s, n - 1, n);
    InstantsAreNear(s, n - 1);
    EveryDayInstances(s, n);
    DayFallsFirst(s, n);
    EveryDayReach(s, n);
    SearchFindsIff(s, after, n);
    EveryDaySpan(s.rule);
    ShortWait(after + 1, InstantOn(s, n));
  }

  lemma ShortWait(from: int, t: int)
    requires from <= t < from + 6 * MS_PER_DAY
    ensures Rung(from, 2, MAX_STEPS, t).Some?
  {
    var steps := MAX_STEPS;
    if t < from + 2 * MS_PER_DAY {
      RungHolds(from, 2, steps, t);
    } else {
      RungHolds(from + 2 * MS_PER_DAY, 4, steps - 1, t);
    }
  }

  lemma DayFallsFirst(s: Series, n: int)
    requires s.Valid() && EveryDay(s.rule) && IsInstance(s, n) && n > StartDay(s)
    ensures FallsFirst(s, InstantOn(s, n - 1), n)
  {
    hide InstantOn, IsInstance, Lawful, UntilAllowed, Usable, EveryDay, WellFormed, StartDay;
    InstantsAscend(s, n - 1, n);
    forall m | IsInstance(s, m) && InstantOn(s, n - 1) < InstantOn(s, m) ensures InstantOn(s, n) <= InstantOn(s, m) {
      EveryDayInstances(s, m);
      if m < n - 1 { InstantsAscend(s, m, n - 1); }
      if n < m { InstantsAscend(s, n, m); }
    }
  }

  lemma EveryDayReach(s: Series, n: int)
    requires s.Valid() && EveryDay(s.rule)
    ensures InReach(s, n) <==> s.rule.count.Some? ==> n < StartDay(s) + MAX_PERIODS
  {
    hide Lawful, Usable, StartDay;
  }

  // Such a series can start on any day, with any COUNT or none.
  lemma SuchASeries(day: int, count: Option<int>) returns (s: Series)
    requires day >= FIRST_USABLE_DAY && (count.Some? ==> count.value > 0)
    ensures s.Valid() && s.Parsed() && EveryDay(s.rule) && s.rule.count == count && StartDay(s) == day
    ensures InstantOn(s, day) == day * MS_PER_DAY
  {
    hide InstantOn, LocalOn, DayNumber, MonthLength, Usable, Proper, Lawful, WellFormed, Gregorian, FromEpochDay,
         Expand.Series.Valid;
    var rule := Rule(Daily, 1, count, None, [], [], [], MO);
    s := Series(rule, LocalDateTime(FromEpochDay(day), 0, 0, 0), Zone(t => 0));
    RealDay(day);
    assert WellFormed(rule) by { Plain(rule); }
    InUtc(s, day);
  }

  // So both happen: every midnight in UTC, looked for from 1030 days before the first, is refused; with COUNT 300000
  // the last of them is missed by a search that starts on the day before.
  lemma RefusalHappens(day: int) returns (s: Series, after: int)
    requires day >= FIRST_USABLE_DAY
    ensures s.Valid() && s.Parsed() && StartDay(s) == day && after == (day - 1030) * MS_PER_DAY - 1
    ensures FallsFirst(s, after, day) && InReach(s, day)
    ensures SearchAfter(s, after).Result() == Err(RecurrenceTooDense(MAX_OCCURRENCES))
  {
    hide InstantOn, Lawful, UntilAllowed, Usable, EveryDay, WellFormed, SearchAfter, StartDay, InReach, FallsFirst;
    s := SuchASeries(day, None);
    after := (day - 1030) * MS_PER_DAY - 1;
    LateStartIsRefused(s, after);
  }

  lemma MissHappens(day: int) returns (s: Series, after: int, n: int)
    requires day >= FIRST_USABLE_DAY
    ensures s.Valid() && s.Parsed() && StartDay(s) == day && n == day + 299_999 && after == InstantOn(s, n - 1)
    ensures FallsFirst(s, after, n) && Rung(after + 1, InitialSpanDays(s.rule), MAX_STEPS, InstantOn(s, n)).Some?
    ensures SearchAfter(s, after).Result() == Ok(None)
  {
    hide InstantOn, Lawful, UntilAllowed, Usable, EveryDay, WellFormed, SearchAfter, StartDay, InReach, FallsFirst,
         Rung;
    s := SuchASeries(day, Some(300_000));
    n := day + 299_999;
    after := InstantOn(s, n - 1);
    CountOutrunsTheSearch(s, n);
  }

  lemma Plain(rule: Rule)
    requires EveryDay(rule) && rule.wkst == MO && (rule.count.Some? ==> rule.count.value > 0)
    ensures WellFormed(rule)
  {}
}
