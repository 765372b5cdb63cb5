// packages/core/src/calendar/domain/materialisation.ts and application/rematerialise.ts: an event's materialised
// occurrences, kept in step with its rule as the horizon moves.
module Materialisation {
  import opened Prelude
  import opened CivilDate
  import opened ZonedTime
  import opened Rules
  import opened Expand
  import opened OccurrenceTable
  import opened ReconcileCorrect

  const HORIZON_DAYS: int := 400
  const TRAILING_DAYS: int := 400

  datatype Timing = Timed(startsAt: int, endsAt: int) | AllDay(startDate: LocalDate, endDate: LocalDate)

  // The part of the calendar event that materialisation reads and writes.
  datatype EventProps = EventProps(
    id: int, timing: Timing, zone: Zone, rule: Option<Rule>, materialisedThrough: Option<int>)
  {
    predicate Parsed() {
      && (rule.Some? ==> WellFormed(rule.value))
      && (timing.AllDay? ==> 1 <= timing.startDate.month <= 12 && 1 <= timing.endDate.month <= 12)
    }

    // DTSTART, as the source derives it from the timing.
    function Dtstart(): (l: LocalDateTime)
      requires Parsed()
      ensures 1 <= l.date.month <= 12
    {
      match timing
      case Timed(startsAt, _) => InstantToLocal(startsAt, zone)
      case AllDay(startDate, _) => LocalDateTime(startDate, 0, 0, 0)
    }

    function Series(): (s: Expand.Series)
      requires Parsed() && rule.Some?
      ensures s.Parsed()
    {
      Expand.Series(rule.value, Dtstart(), zone)
    }

    ghost predicate Recurring() { Parsed() && rule.Some? && Series().Valid() }
  }

  function MaterialisationWindow(now: int): Window {
    Window(now - TRAILING_DAYS * MS_PER_DAY, now + HORIZON_DAYS * MS_PER_DAY, MAX_OCCURRENCES)
  }

  datatype OccurrencePlan = OccurrencePlan(planned: seq<Planned>, materialisedThrough: Option<int>,
                                           scopeFrom: Option<int>)

  // Absolute duration for a timed event; the authored number of days for an all-day one.
  function PlanOne(ev: EventProps, o: Occurrence): Planned
    requires ev.Parsed() && 1 <= o.local.date.month <= 12
  {
    match ev.timing
    case Timed(startsAt, endsAt) => Planned(o.instant, o.instant + (endsAt - startsAt))
    case AllDay(startDate, endDate) =>
      var spanDays := ToEpochDay(endDate) - ToEpochDay(startDate);
      Planned(o.instant, StartOfDay(AddDays(o.local.date, spanDays + 1), ev.zone))
  }

  function PlanAll(ev: EventProps, occurrences: seq<Occurrence>): (planned: seq<Planned>)
    requires ev.Parsed() && forall i :: 0 <= i < |occurrences| ==> 1 <= occurrences[i].local.date.month <= 12
    ensures |planned| == |occurrences|
    ensures forall i :: 0 <= i < |planned| ==> planned[i] == PlanOne(ev, occurrences[i])
  {
    if occurrences == [] then [] else [PlanOne(ev, occurrences[0])] + PlanAll(ev, occurrences[1..])
  }

  // materialisation.ts planOccurrences.
  function PlanOccurrences(ev: EventProps, w: Window): Result<OccurrencePlan, RecurrenceError>
    requires ev.Parsed()
  {
    match ev.rule
    case None =>
      var planned := match ev.timing
        case Timed(startsAt, endsAt) => Planned(startsAt, endsAt)
        case AllDay(startDate, endDate) =>
          Planned(StartOfDay(startDate, ev.zone), StartOfDay(AddDays(endDate, 1), ev.zone));
      Ok(OccurrencePlan([planned], None, None))
    case Some(_) =>
      WalkedMonths(ev.Series(), w);
      match Walk(ev.Series(), w).Result()
      case Err(e) => Err(e)
      case Ok(e) =>
        Ok(OccurrencePlan(PlanAll(ev, e.occurrences), if e.exhausted then None else Some(w.to), Some(w.from)))
  }

  datatype Rematerialised = Rematerialised(window: Window, counts: Counts, occurrenceCount: int)

  class CalendarEvent {
    var props: EventProps

    constructor (p: EventProps)
      ensures props == p
    {
      props := p;
    }

    method RecordMaterialisedThrough(through: Option<int>)
      modifies this
      ensures props == old(props).(materialisedThrough := through)
    {
      props := props.(materialisedThrough := through);
    }
  }

  // application/rematerialise.ts: plan, reconcile against the rows in scope, apply, move the marker; nothing at all
  // happens when the expansion is refused.
  method Rematerialise(repository: OccurrenceRepository, event: CalendarEvent, now: int)
    returns (r: Result<Rematerialised, RecurrenceError>)
    requires event.props.Parsed()
    modifies repository, event
    ensures match PlanOccurrences(old(event.props), MaterialisationWindow(now))
            case Err(e) =>
              && r == Err(e) && repository.State() == old(repository.State()) && event.props == old(event.props)
            case Ok(plan) =>
              && r.Ok? && r.value.window == MaterialisationWindow(now) && r.value.occurrenceCount == |plan.planned|
              && repository.State()
                 == Reconciled(old(repository.State()), old(event.props).id, plan.planned, plan.scopeFrom)
              && event.props == old(event.props).(materialisedThrough := plan.materialisedThrough)
  {
    hide Walk, WellFormed, ListForEvent, Applied, PlanFor, StartOfDay;
    var window := MaterialisationWindow(now);
    match PlanOccurrences(event.props, window) {
      case Err(e) => return Err(e);
      case Ok(plan) =>
        var existing := ListForEvent(repository.rows, event.props.id, plan.scopeFrom);
        var reconciled := Reconcile(plan.planned, existing);
        var counts := repository.ApplyPlan(event.props.id, reconciled);
        event.RecordMaterialisedThrough(plan.materialisedThrough);
        return Ok(Rematerialised(window, counts, |plan.planned|));
    }
  }
}
