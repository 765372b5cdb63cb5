// packages/core/src/tasks/domain/successor.ts and application/commands/close-task.command.ts: closing the head of a
// recurring series spawns the next task.
module Successors {
  import opened Prelude
  import opened CivilDate
  import opened Rules
  import opened Expand
  import opened NextOccurrence
  import opened Dues
  import opened Tasks

  function Max(a: int, b: int): (m: int)
    ensures a <= m && b <= m && (m == a || m == b)
  {
    if a >= b then a else b
  }

  // The rule on the series' anchor, in the zone of the head's due date.
  function SeriesOf(p: TaskProps, zones: Zones): (s: Series)
    requires p.recurrenceRule.Some? && p.recurrenceAnchor.Some? && p.due.Some?
    ensures s.Parsed()
  {
    Series(p.recurrenceRule.value, p.recurrenceAnchor.value, zones(p.due.value.timeZone))
  }

  predicate Recurring(p: TaskProps) {
    p.isSeriesHead && p.recurrenceRule.Some? && p.recurrenceAnchor.Some? && p.due.Some?
  }

  lemma {:induction false} FoundMonths(s: Series, from: int, spanDays: int, steps: int)
    requires s.Parsed()
    ensures match SearchFrom(s, from, spanDays, steps) case Found(o) => 1 <= o.local.date.month <= 12 case _ => true
    decreases steps
  {
    hide Walk, WellFormed;
    if steps > 0 {
      WalkedMonths(s, StepWindow(from, spanDays));
      FoundMonths(s, from + spanDays * ZonedTime.MS_PER_DAY, NextSpan(spanDays), steps - 1);
    }
  }

  // The same kind of due date, on the occurrence's date and at its time.
  function DueOn(due: Due, l: LocalDateTime): Due
    requires 1 <= l.date.month <= 12
  {
    match due
    case OnDate(_, timeZone) => OnDate(l.date, timeZone)
    case AtTime(_, _, timeZone) => AtTime(l.date, LocalTime(l.hour, l.minute), timeZone)
  }

  function FirstAfter(s: Series, after: int): (r: Result<Option<Occurrence>, RecurrenceError>)
    requires s.Parsed()
    ensures r.Ok? && r.value.Some? ==> 1 <= r.value.value.local.date.month <= 12
  {
    var steps := MAX_STEPS;
    FoundMonths(s, after + 1, InitialSpanDays(s.rule), steps);
    SearchAfter(s, after).Result()
  }

  // successor.ts successorDueOf: the first occurrence after both the due moment and the closing one.
  function SuccessorDueOf(p: TaskProps, closedAt: int, zones: Zones): Result<Option<Due>, RecurrenceError> {
    if !Recurring(p) then Ok(None)
    else
      match FirstAfter(SeriesOf(p, zones), Max(DueMomentOf(p.due.value, zones), closedAt))
      case Err(e) => Err(e)
      case Ok(None) => Ok(None)
      case Ok(Some(o)) => Ok(Some(DueOn(p.due.value, o.local)))
  }

  // --- Closing -----------------------------------------------------------------------------------------------------

  datatype Closing = Completing | CancellingInstance | CancellingSeries

  datatype CloseError = TaskRefused(error: TaskError) | Dense(density: RecurrenceError)

  datatype Closed = Closed(task: TaskProps, successor: Option<TaskProps>)

  function ClosedBy(p: TaskProps, how: Closing, byMember: int, now: int): TaskProps {
    if how.Completing? then CompletedBy(p, byMember, now) else CancelledBy(p, byMember, now)
  }

  // The closing transaction: both rows, or nothing.
  function CloseOutcome(p: TaskProps, how: Closing, byMember: int, now: int, successorId: int,
                        zones: Zones): Result<Closed, CloseError> {
    var closed := ClosedBy(p, how, byMember, now);
    if !p.state.Open? then
      Err(TaskRefused(InvalidTransition(StatusOf(p.state), if how.Completing? then CompleteIt else CancelIt)))
    else if how.CancellingSeries? then Ok(Closed(closed, None))
    else
      match SuccessorDueOf(closed, now, zones)
      case Err(e) => Err(Dense(e))
      case Ok(None) => Ok(Closed(closed, None))
      case Ok(Some(due)) =>
        Ok(Closed(closed.(isSeriesHead := false), Some(Successor(closed, successorId, due, Some(byMember), now))))
  }

  method FindSuccessorDue(head: Task, closedAt: int, zones: Zones) returns (r: Result<Option<Due>, RecurrenceError>)
    ensures r == SuccessorDueOf(head.props, closedAt, zones)
  {
    hide SearchFrom, DueMomentOf, InitialSpanDays, WellFormed;
    var p := head.props;
    if !Recurring(p) { return Ok(None); }
    var s, after := SeriesOf(p, zones), Max(DueMomentOf(p.due.value, zones), closedAt);
    var _ := FirstAfter(s, after);
    var next := NextOccurrenceAfter(s, after);
    match next {
      case Err(e) => return Err(e);
      case Ok(None) => return Ok(None);
      case Ok(Some(o)) => return Ok(Some(DueOn(p.due.value, o.local)));
    }
  }

  // The head's flag is cleared before its successor, the new head, is handed over.
  method SpawnSuccessor(head: Task, closedAt: int, successorId: int, byMember: int, zones: Zones)
    returns (r: Result<Option<Task>, RecurrenceError>)
    modifies head
    ensures match SuccessorDueOf(old(head.props), closedAt, zones)
            case Err(e) => r == Err(e) && head.props == old(head.props)
            case Ok(None) => r == Ok(None) && head.props == old(head.props)
            case Ok(Some(due)) =>
              && head.props == old(head.props).(isSeriesHead := false)
              && r.Ok? && r.value.Some? && fresh(r.value.value)
              && r.value.value.props == Successor(old(head.props), successorId, due, Some(byMember), closedAt)
  {
    hide SuccessorDueOf;
    var due := FindSuccessorDue(head, closedAt, zones);
    if due.Err? { return Err(due.error); }
    if due.value.None? { return Ok(None); }
    var successor := Task.SuccessorOf(successorId, head, due.value.value, Some(byMember), closedAt);
    head.RelinquishHead();
    return Ok(Some(successor));
  }

  // A refusal, or a search that fails, leaves the task as it was.
  method CloseTask(task: Task, how: Closing, byMember: int, now: int, successorId: int, zones: Zones)
    returns (r: Result<Option<Task>, CloseError>)
    modifies task
    ensures match CloseOutcome(old(task.props), how, byMember, now, successorId, zones)
            case Err(e) => r == Err(e) && task.props == old(task.props)
            case Ok(outcome) =>
              && task.props == outcome.task && r.Ok?
              && (match outcome.successor
                  case None => r.value == None
                  case Some(q) => r.value.Some? && fresh(r.value.value) && r.value.value.props == q)
  {
    hide SuccessorDueOf;
    var before := task.props;
    if how.Completing? {
      var completed := task.Complete(byMember, now);
      if completed.Err? { return Err(TaskRefused(completed.error)); }
    } else {
      var cancelled := task.Cancel(byMember, now);
      if cancelled.Err? { return Err(TaskRefused(cancelled.error)); }
    }
    if how.CancellingSeries? { return Ok(None); }
    var spawned := SpawnSuccessor(task, now, successorId, byMember, zones);
    if spawned.Err? {
      task.props := before;
      return Err(Dense(spawned.error));
    }
    return Ok(spawned.value);
  }
}
