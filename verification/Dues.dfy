// packages/core/src/tasks/domain/due.ts: when a task is due.
module Dues {
  import opened Prelude
  import opened CivilDate
  import opened ZonedTime

  datatype LocalTime = LocalTime(hour: int, minute: int)

  datatype DueValue =
    | OnDate(date: LocalDate, timeZone: string)
    | AtTime(date: LocalDate, time: LocalTime, timeZone: string)

  // A due date has passed the parser of calendar dates: its month is a month.
  type Due = d: DueValue | 1 <= d.date.month <= 12 witness OnDate(LocalDate(1970, 1, 1), "UTC")

  // The runtime's zone data, by zone name.
  type Zones = string -> Zone

  // The end of the date where it was authored, or the moment of the local time.
  function DueMomentOf(due: Due, zones: Zones): int {
    match due
    case OnDate(date, timeZone) => StartOfDay(AddDays(date, 1), zones(timeZone))
    case AtTime(date, time, timeZone) => LocalToInstant(LocalDateTime(date, time.hour, time.minute, 0), zones(timeZone))
  }

  type Anchor = l: LocalDateTime | 1 <= l.date.month <= 12 witness LocalDateTime(LocalDate(1970, 1, 1), 0, 0, 0)

  // The local reading a rule is anchored at.
  function DueLocalDateTime(due: Due): Anchor {
    match due
    case OnDate(date, _) => LocalDateTime(date, 0, 0, 0)
    case AtTime(date, time, _) => LocalDateTime(date, time.hour, time.minute, 0)
  }

  predicate SameDue(a: Option<Due>, b: Option<Due>, zones: Zones) {
    if a.None? || b.None? then a.None? && b.None?
    else
      && DueMomentOf(a.value, zones) == DueMomentOf(b.value, zones)
      && a.value.OnDate? == b.value.OnDate? && a.value.timeZone == b.value.timeZone
  }
}
