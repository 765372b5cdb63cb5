// The parsed value of packages/kernel/src/recurrence/rrule.vo.ts: a rule of RFC 5545 section 3.3.10, subset.
module Rules {
  import opened Prelude
  import opened CivilDate

  datatype Frequency = Daily | Weekly | Monthly | Yearly

  datatype Weekday = MO | TU | WE | TH | FR | SA | SU

  const WEEKDAYS: seq<Weekday> := [MO, TU, WE, TH, FR, SA, SU]

  function WeekdayIndex(w: Weekday): (i: int)
    ensures 0 <= i < 7 && WEEKDAYS[i] == w
  {
    match w
    case MO => 0 case TU => 1 case WE => 2 case TH => 3 case FR => 4 case SA => 5 case SU => 6
  }

  datatype ByDay = ByDay(weekday: Weekday, ordinal: Option<int>)

  datatype Until =
    | UntilDate(date: LocalDate)
    | UntilUtc(instant: int)
    | UntilLocal(local: LocalDateTime)

  datatype Rule = Rule(
    freq: Frequency,
    interval: int,
    count: Option<int>,
    until: Option<Until>,
    byDay: seq<ByDay>,
    byMonthDay: seq<int>,
    byMonth: seq<int>,
    wkst: Weekday)

  // What the constructor's only caller, the parser, lets through.
  predicate OrdinalAllowed(freq: Frequency, ordinal: int) {
    && ordinal != 0
    && -53 <= ordinal <= 53
    && !freq.Daily? && !freq.Weekly?
    && (freq.Monthly? ==> -5 <= ordinal <= 5)
  }

  predicate RealDate(d: LocalDate) {
    0 <= d.year <= 9999 && 1 <= d.month <= 12 && 1 <= d.day <= DaysInMonth(d.year, d.month)
  }

  predicate UntilAllowed(u: Until) {
    match u
    case UntilDate(d) => RealDate(d)
    case UntilLocal(l) => RealDate(l.date) && TimeOfDay(l)
    case UntilUtc(t) =>
      var l := FromLocalSeconds(t / 1000);
      t % 1000 == 0 && 100 <= l.date.year <= 9999
  }

  predicate WellFormed(r: Rule) {
    && r.interval >= 1
    && (r.count.Some? ==> r.count.value >= 1)
    && (r.until.Some? ==> r.count.None? && UntilAllowed(r.until.value))
    && (forall b :: b in r.byDay && b.ordinal.Some? ==> OrdinalAllowed(r.freq, b.ordinal.value))
    && (r.freq.Weekly? ==> r.byMonthDay == [])
    && (forall v :: v in r.byMonthDay ==> v != 0 && -31 <= v <= 31)
    && (forall i :: 0 <= i < |r.byMonth| ==> 1 <= r.byMonth[i] <= 12)
  }
}
