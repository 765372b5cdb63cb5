// packages/kernel/src/recurrence/expand.ts: the expander, as the source runs it and as one recursive walk.
module Expand {
  import opened Prelude
  import opened CivilDate
  import opened ZonedTime
  import opened Rules
  import opened Periods

  const MAX_OCCURRENCES: int := 1000
  const MAX_PERIODS: int := 200_000

  // A rule anchored at its first local reading in a zone.
  datatype Series = Series(rule: Rule, dtstart: LocalDateTime, zone: Zone) {
    predicate Parsed() { WellFormed(rule) && 1 <= dtstart.date.month <= 12 }

    // `dtstart` is a real date and time from year 1 on, in a zone the resolution method holds for.
    ghost predicate Valid() { WellFormed(rule) && Usable(dtstart) && Lawful(zone) }
  }

  // Half-open, by occurrence start, with the most occurrences it may hold.
  datatype Window = Window(from: int, to: int, limit: int)

  datatype Occurrence = Occurrence(local: LocalDateTime, instant: int)

  datatype Expansion = Expansion(occurrences: seq<Occurrence>, exhausted: bool)

  datatype RecurrenceError = RecurrenceTooDense(limit: int)

  type Expanded = Result<Expansion, RecurrenceError>

  predicate BeyondUntil(r: Rule, local: LocalDateTime, instant: int)
    requires WellFormed(r) && 1 <= local.date.month <= 12
  {
    match r.until
    case None => false
    case Some(UntilDate(d)) => CompareLocalDates(local.date, d) > 0
    case Some(UntilUtc(t)) => instant > t
    case Some(UntilLocal(l)) => CompareLocalDateTimes(local, l) > 0
  }

  function FirstPeriod(s: Series, w: Window): (k: int)
    requires s.Parsed()
    ensures k >= 0
  {
    if s.rule.count.Some? then 0
    else
      var windowStartDate := AddDays(InstantToLocal(w.from, s.zone).date, -2);
      var k := PeriodsBetween(s.rule, s.dtstart.date, windowStartDate) - 1;
      if k > 0 then k else 0
  }

  function LastDate(s: Series, w: Window): (d: LocalDate)
    ensures 1 <= d.month <= 12
  {
    AddDays(InstantToLocal(w.to, s.zone).date, 1)
  }

  // The state of the loop between two candidates, or the result it has returned with.
  datatype Scan = Going(occurrences: seq<Occurrence>, produced: int) | Stopped(result: Expanded)

  function ScanDate(s: Series, w: Window, date: LocalDate, occurrences: seq<Occurrence>, produced: int): Scan
    requires s.Parsed() && 1 <= date.month <= 12
  {
    var local := s.dtstart.(date := date);
    if CompareLocalDateTimes(local, s.dtstart) < 0 then Going(occurrences, produced)
    else
      var instant := LocalToInstant(local, s.zone);
      if BeyondUntil(s.rule, local, instant) then Stopped(Ok(Expansion(occurrences, true)))
      else if s.rule.count.Some? && produced + 1 > s.rule.count.value then Stopped(Ok(Expansion(occurrences, true)))
      else if instant >= w.to then Stopped(Ok(Expansion(occurrences, false)))
      else if instant < w.from then Going(occurrences, produced + 1)
      else if |occurrences| + 1 > w.limit then Stopped(Err(RecurrenceTooDense(w.limit)))
      else Going(occurrences + [Occurrence(local, instant)], produced + 1)
  }

  function ScanDates(s: Series, w: Window, dates: seq<LocalDate>, occurrences: seq<Occurrence>, produced: int): Scan
    requires s.Parsed() && Months(dates)
  {
    if dates == [] then Going(occurrences, produced)
    else
      match ScanDate(s, w, dates[0], occurrences, produced)
      case Stopped(r) => Stopped(r)
      case Going(o, p) => ScanDates(s, w, dates[1..], o, p)
  }

  // How the walk ends: with a result, or by the guard on the number of periods.
  datatype Outcome = Finished(result: Expanded) | OutOfPeriods(occurrences: seq<Occurrence>) {
    function Result(): Expanded {
      match this
      case Finished(r) => r
      case OutOfPeriods(o) => Ok(Expansion(o, false))
    }
  }

  function ScanPeriods(s: Series, w: Window, k: int, end: int, occurrences: seq<Occurrence>, produced: int): Outcome
    requires s.Parsed()
    decreases end - k
  {
    if k >= end then OutOfPeriods(occurrences)
    else if CompareLocalDates(PeriodStart(s.rule, s.dtstart.date, k), LastDate(s, w)) > 0 then
      Finished(Ok(Expansion(occurrences, false)))
    else
      match ScanDates(s, w, CandidatesForPeriod(s.rule, s.dtstart.date, k), occurrences, produced)
      case Stopped(r) => Finished(r)
      case Going(o, p) => ScanPeriods(s, w, k + 1, end, o, p)
  }

  function Walk(s: Series, w: Window): Outcome
    requires s.Parsed()
  {
    var first := FirstPeriod(s, w);
    ScanPeriods(s, w, first, first + MAX_PERIODS, [], 0)
  }

  // The source's loop, with its early returns.
  method Expand(s: Series, w: Window) returns (r: Expanded)
    requires s.Parsed()
    ensures r == Walk(s, w).Result()
  {
    hide PeriodStart, CandidatesForPeriod, CompareLocalDates, LocalToInstant, FirstPeriod, LastDate, BeyondUntil,
         CompareLocalDateTimes, WellFormed;
    var startDate := s.dtstart.date;
    var lastDate := LastDate(s, w);
    var firstPeriod := FirstPeriod(s, w);
    var occurrences: seq<Occurrence> := [];
    var produced := 0;
    var k := firstPeriod;
    while k < firstPeriod + MAX_PERIODS
      invariant firstPeriod <= k <= firstPeriod + MAX_PERIODS
      invariant Walk(s, w) == ScanPeriods(s, w, k, firstPeriod + MAX_PERIODS, occurrences, produced)
    {
      if CompareLocalDates(PeriodStart(s.rule, startDate, k), lastDate) > 0 {
        return Ok(Expansion(occurrences, false));
      }
      var dates := CandidatesForPeriod(s.rule, startDate, k);
      var i := 0;
      ghost var before := ScanDates(s, w, dates, occurrences, produced);
      while i < |dates|
        invariant 0 <= i <= |dates|
        invariant before == ScanDates(s, w, dates[i..], occurrences, produced)
      {
        var local := s.dtstart.(date := dates[i]);
        assert dates[i..][1..] == dates[i + 1..];
        i := i + 1;
        if CompareLocalDateTimes(local, s.dtstart) < 0 { continue; }

        var instant := LocalToInstant(local, s.zone);
        if BeyondUntil(s.rule, local, instant) { return Ok(Expansion(occurrences, true)); }

        produced := produced + 1;
        if s.rule.count.Some? && produced > s.rule.count.value { return Ok(Expansion(occurrences, true)); }

        if instant >= w.to { return Ok(Expansion(occurrences, false)); }
        if instant >= w.from {
          occurrences := occurrences + [Occurrence(local, instant)];
          if |occurrences| > w.limit { return Err(RecurrenceTooDense(w.limit)); }
        }
      }
      k := k + 1;
    }
    return Ok(Expansion(occurrences, false));
  }

  // Listed dates have months, whatever the rule.
  lemma WalkedMonths(s: Series, w: Window)
    requires s.Parsed()
    ensures match Walk(s, w).Result()
            case Ok(e) => forall i :: 0 <= i < |e.occurrences| ==> 1 <= e.occurrences[i].local.date.month <= 12
            case Err(_) => true
  {
    hide ScanDates, CandidatesForPeriod, PeriodStart, LastDate, FirstPeriod, WellFormed;
    var first := FirstPeriod(s, w);
    ScannedPeriodMonths(s, w, first, first + MAX_PERIODS, [], 0);
  }

  predicate ListedMonths(occurrences: seq<Occurrence>) {
    forall i :: 0 <= i < |occurrences| ==> 1 <= occurrences[i].local.date.month <= 12
  }

  lemma {:induction false} ScannedMonths(s: Series, w: Window, dates: seq<LocalDate>, occurrences: seq<Occurrence>,
                                         produced: int)
    requires s.Parsed() && Months(dates) && ListedMonths(occurrences)
    ensures match ScanDates(s, w, dates, occurrences, produced)
            case Going(o, _) => ListedMonths(o)
            case Stopped(Ok(e)) => ListedMonths(e.occurrences)
            case Stopped(Err(_)) => true
  {
    hide WellFormed, LocalToInstant, BeyondUntil, CompareLocalDateTimes;
    if dates != [] {
      match ScanDate(s, w, dates[0], occurrences, produced)
      case Stopped(_) =>
      case Going(o, p) => ScannedMonths(s, w, dates[1..], o, p);
    }
  }

  lemma {:induction false} ScannedPeriodMonths(s: Series, w: Window, k: int, end: int, occurrences: seq<Occurrence>,
                                               produced: int)
    requires s.Parsed() && ListedMonths(occurrences)
    ensures match ScanPeriods(s, w, k, end, occurrences, produced).Result()
            case Ok(e) => ListedMonths(e.occurrences)
            case Err(_) => true
    decreases end - k
  {
    hide ScanDates, CandidatesForPeriod, PeriodStart, LastDate, WellFormed, ListedMonths;
    if k < end {
      var dates := CandidatesForPeriod(s.rule, s.dtstart.date, k);
      ScannedMonths(s, w, dates, occurrences, produced);
      match ScanDates(s, w, dates, occurrences, produced)
      case Stopped(_) =>
      case Going(o, p) => ScannedPeriodMonths(s, w, k + 1, end, o, p);
    }
  }
}
