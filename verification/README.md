# A verified model of the family platform's core mechanisms

Five mechanisms of the repository are modelled here in Dafny and proved, each from the code upwards:

1. **The recurrence kernel** (`packages/kernel/src/recurrence`). Civil dates, the resolution of local times in a zone, the
   RRULE parser and printer, the period-by-period expander with its skip-ahead and early cutoffs, and the doubling-window
   search for the next occurrence. The expander is proved to compute a recurrence set that is defined separately
   (`RecurrenceSet`, `ExpandExact.IsInstance`), without periods, loops or skips.
2. **Occurrence materialisation** (`packages/core/src/calendar`). Plan, reconcile, apply and move the marker; then whole runs
   of the background sweep mixed with cancellations.
3. **Outbox relay and idempotent consumer** (`apps/worker/src/relay`, `packages/platform/src/sqs-consumer.ts`). Two state
   machines, with a failure possible between any two effects, and their product; the relay's tick and the consumer's poll
   are also written out as the code runs them and proved to be runs of the machines.
4. **Recurring-task series** (`packages/core/src/tasks`). The task aggregate, its successor rule, chains of closings, and a
   family's whole board of tasks.
5. **The sweep scheduler** (`apps/worker/src/scheduler`). Timers, runs, start and stop on one event loop.

## How it is laid out

| files | what they hold |
|---|---|
| `CivilDate`, `ZonedTime`, `Rules`, `Periods`, `Expand`, `NextOccurrence` | the kernel's own functions, and its loops as methods |
| `RecurrenceSet`, `PeriodExact`, `ExpandExact`, `PeriodGuard`, `WalkEnds` | the recurrence set, the proof that the expander computes it, how far it reaches and when it says the rule is over |
| `RRuleText`, `RRuleRoundTrip`, `RRuleMeaning` | the parser and printer, that they undo each other, and which text means which rule |
| `OccurrenceTable`, `ReconcileCorrect`, `Materialisation`, `Horizon` | the occurrence table, the reconcile, the event, the moving horizon |
| `QueueTopology`, `OutboxRelay`, `SqsDelivery`, `NoLoss` | the relay machine, the queue and consumer machine, and both together |
| `RelaySweep`, `RelayRefinement`, `RelayDrain` | one tick as the code runs it, as a run of the machine, and how fast a backlog drains |
| `SqsConsumer` | one poll as the code runs it, as a run of the machine, and when it throws |
| `DailyRules` | the every-day rule, and the dates the search for its next occurrence refuses or misses |
| `Dues`, `Tasks`, `TaskContents`, `TaskRuns`, `Successors`, `SuccessorChain`, `TaskBoard` | due dates, the aggregate, what its operations write, its invariants, closing, chains of closings, all tasks of a family |
| `SweepScheduler`, `SchedulerSafety` | the scheduler and what it keeps |

Code that works step by step is a method, or a class with the source's fields, whose contract equates the new state with a
function of the old; what the source promises is then proved about that function.

## Hypotheses

- A time zone is an offset function on seconds. `ZonedTime.Lawful` states what the resolution method relies on: offsets and
  single jumps are shorter than a day, and no zone changes offset twice within 48 hours (`zoned-time.ts:155-156`).
- A series starts at a real local date and time from year 1 on (`ZonedTime.Usable`): in the year 0 the platform's century
  correction disagrees with the Gregorian rule.
- Queue names are distinct. Messages are not lost by the queue service itself.

## Where the code and what is said of it differ

Each of these is proved with its exact condition.

- **Civil dates.** Day numbers and dates are inverse to each other except at 29 February of the year 0, and month lengths
  are right except for that month (`CivilDate.EpochDaysRoundTrip`, `DatesRoundTrip`, `AddDaysIsAdditive`,
  `MonthLengthsAgree`).
- **"Closed early, it advances exactly one scheduled date"** (`successor.ts:13`). So it does, except that a task due on a
  date rather than at a time skips a date scheduled for the very next day: its due moment is that day's midnight, and the
  search is strict; nor does it where the search refuses or misses the date, as below
  (`SuccessorChain.ClosedEarlyAdvancesOneDateIff`). When that next day is the rule's last date the series ends a date
  early (`LastDateIsDropped`); a daily task closed in time is followed by the day after next (`DailySkipsADay`), and one
  with COUNT 2 by nothing (`DailyTwiceStopsAfterOne`).
- **`exhausted`, "the rule has ended"** (`expand.ts:302-305`). The flag is set only when the walk meets a date past UNTIL or
  COUNT, so a rule with nothing left to give may still report false: exactly when no such date lies in the periods the
  window makes it open (`WalkEnds.ExhaustedIff`), as for a rule whose interval outlasts its UNTIL
  (`WalkEnds.ExhaustionIsMissed`).
- **A search that refuses or misses a date** (`next-occurrence.ts:54-71`). The next occurrence is found if and only if it
  is within the reach of the expander's guard on periods, and the one window of the search that holds it holds no more
  than the limit. It is refused as too dense when that window holds more; it is missed when no window holds it, and also
  when it is a date of a COUNT rule past that reach, even one the first window holds (`NextOccurrence.SearchFindsIff`).
  Within 990 days, less an interval of the rule, only the reach matters (`SoonIsFindable`). Refusal and miss both happen
  (`DailyRules.RefusalHappens`, `MissHappens`): a daily rule is refused exactly when the window that holds its next date
  also holds the date a thousand days later (`EveryDayIsRefusedIff`), so the head of a daily series whose due date is
  moved to some three years before the series can neither be completed nor cancelled by itself
  (`SuccessorChain.MovedBackCannotBeClosed`).
- **"Never throws past this call"** (`sqs-consumer.ts:73-77`). A poll returns exactly when every ledger and delete call it
  makes replies; a ledger or delete call that throws ends it (`SqsConsumer.PollReturnsIff`).
- **Handler runs.** At most one success per event, and one more per interruption before the ledger write, exactly when no
  two consumers poll the queue (`SqsDelivery.RunsAreBoundedIffOneConsumer`).
- **"The rest of the batch still goes out"** (`outbox-relay.sweep.ts:204-205`). The claim is the oldest rows, so a full
  batch of rows that fail every time keeps every later row from ever being published: a row goes out some day exactly when
  fewer than a batch of those are ahead of it (`RelayDrain.PublishedSomeDayIff`; with one queue and a batch of refused
  rows, `RelayDrain.FullBatchOfFailuresStarves`).
- **A published row and late callbacks.** A transaction that outlives its 30 seconds is closed while its callback goes on
  sending. A published row is sent to a queue again exactly when such a callback still owes it
  (`OutboxRelay.PublishedRowIsSentAgainIffOwed`), only a callback that has lost its transaction can
  (`OutboxRelay.OnlyExpiredTicksLagBehind`), and one that does is reached in seven steps
  (`OutboxRelay.PublishedRowMayBeOwed`).
- **The scheduler's stop.** One timer per sweep, and a stop that answers true only when nothing is in flight, hold in every
  run in which no start is taken up while a stop call still waits. Two overlapping stops make such a start possible
  (`SchedulerSafety.OverlapIsReachable`); from every state that allows one there is a way to a sweep with two timers
  (`DisorderDoublesTimers`), and wherever the stop waits for the run of one sweep and there is another, a way to its
  answering true beside a run in flight (`DisorderMakesStopLie`, and from the start `StopCanLie`). The worker itself stops
  once (`apps/worker/src/main.ts:40-49`).

## Model

| member | source | states |
|---|---|---|
| `CivilDate.FromEpochDay` | packages/kernel/src/recurrence/zoned-time.ts:196-199 | the date of a day number is a real Gregorian date, and the one with that number |
| `CivilDate.AddDays` | packages/kernel/src/recurrence/zoned-time.ts:201-203 | adding days lands on the real date that many days on |
| `CivilDate.DayNumbersOrderDates` | packages/kernel/src/recurrence/zoned-time.ts:191-194 | day numbers order dates as year, month and day do, and tell them apart |
| `CivilDate.EpochDaysRoundTrip` | packages/kernel/src/recurrence/zoned-time.ts:192-199 | a day number survives being turned into a date and back, if and only if that date is not 29 February of year 0 |
| `CivilDate.DatesRoundTrip` | packages/kernel/src/recurrence/zoned-time.ts:192-199 | a date survives being turned into a day number and back, with the same one exception |
| `CivilDate.AddDaysIsAdditive` | packages/kernel/src/recurrence/zoned-time.ts:201-203 | adding days twice adds their sum, if and only if the date in between is not the exception |
| `CivilDate.CompareOrdersDates` | packages/kernel/src/recurrence/zoned-time.ts:205-207 | the comparison's sign is the calendar order, and zero means the same date |
| `CivilDate.MonthLengthsAgree` | packages/kernel/src/recurrence/zoned-time.ts:213-215 | the computed month length is the Gregorian one, if and only if the month is not February of year 0 |
| `CivilDate.ReadingsRoundTrip` | packages/kernel/src/recurrence/zoned-time.ts:84-120 | a reading taken as UTC seconds and read back is itself, and no other count of seconds reads as it |
| `ZonedTime.OffsetsReadBack` | packages/kernel/src/recurrence/zoned-time.ts:122-128 | the offset recovered from a reading is the zone's offset at that instant |
| `ZonedTime.LocalToInstantIsLeast` | packages/kernel/src/recurrence/zoned-time.ts:141-180 | a local time some instant reads as resolves to the first such instant: the two candidates miss none |
| `ZonedTime.LocalToInstantInGap` | packages/kernel/src/recurrence/zoned-time.ts:160-180 | a local time no instant reads as lies in a jump of the clock, and resolves to an instant that reads exactly the jump's width later |
| `ZonedTime.ResolveAscends` | packages/kernel/src/recurrence/zoned-time.ts:160-180 | local times a day or more apart resolve to instants in the same order, across any transition |
| `ZonedTime.LaterReadingIsLater` | packages/kernel/src/recurrence/expand.ts:278-279 | a local time a whole day past an instant's reading resolves to a later instant, which is why a day's margin is enough |
| `RecurrenceSet.PickedIsNth` | packages/kernel/src/recurrence/expand.ts:86-95 | a BYDAY value with an ordinal picks exactly the n-th, or n-th from last, such weekday of its scope, one without picks all of them |
| `RecurrenceSet.WeekdayAgrees` | packages/kernel/src/recurrence/zoned-time.ts:217-220 | the weekday computed from a date is the weekday of its day number |
| `PeriodExact.StartOfWeekIs` | packages/kernel/src/recurrence/expand.ts:120-123 | the start of a week is the one WKST day among the seven days that end at the date |
| `PeriodExact.CandidatesExact` | packages/kernel/src/recurrence/expand.ts:130-202 | the candidates of a period are exactly the dates of that unit the rule selects, strictly ascending, for every frequency and every mix of BY parts |
| `PeriodExact.PeriodStartIs` | packages/kernel/src/recurrence/expand.ts:223-236 | a period's start is the first day of the unit INTERVAL times k after DTSTART's |
| `PeriodExact.CandidatesLieInTheirPeriod` | packages/kernel/src/recurrence/expand.ts:130-236 | every candidate of period k lies from its start up to the next period's, and counting periods back from it gives k |
| `PeriodExact.PeriodsBetweenIs` | packages/kernel/src/recurrence/expand.ts:204-221 | counting periods is the distance between the two dates' units over INTERVAL, rounded down, dates before DTSTART included |
| `Expand.Expand` | packages/kernel/src/recurrence/expand.ts:270-318 | the loops, with every early return, compute the recursive walk that the theorems below are about |
| `ExpandExact.InstantsAscend` | packages/kernel/src/recurrence/expand.ts:292-310 | instances on later days have later instants, so a window is left for good once it is passed |
| `ExpandExact.BeyondIsTested` | packages/kernel/src/recurrence/expand.ts:238-249 | the expander's test of UNTIL is what each of its three forms means: a date includes its whole day, a UTC time is compared with the instant, a time without a zone with the local date and time, and each is itself still included |
| `ExpandExact.UntilIsInclusive` | packages/kernel/src/recurrence/expand.ts:238-249 | a day the rule produces exactly at its UNTIL is an instance, and the last |
| `ExpandExact.BeyondIsLasting` | packages/kernel/src/recurrence/expand.ts:238-249 | once a date is past UNTIL, in any of its three forms, every later date is |
| `ExpandExact.SkippedPeriodsAreEarly` | packages/kernel/src/recurrence/expand.ts:276-282 | the periods the skip-ahead leaves out end before anything the window could hold |
| `ExpandExact.WalkIsExact` | packages/kernel/src/recurrence/expand.ts:251-318 | an expansion that ends lists exactly the rule's instances with instants in the window, in order; it refuses exactly when there are more than the limit; when it reports the rule exhausted there is no instance at or past the window's end |
| `ExpandExact.CutShortIsSound` | packages/kernel/src/recurrence/expand.ts:287-317 | an expansion the guard on periods cuts short lists exactly the window's instances before the period it stopped at |
| `PeriodGuard.UncountedWindowsFinish` | packages/kernel/src/recurrence/expand.ts:276-290 | without COUNT the guard on periods never cuts a window of up to five centuries short, wherever DTSTART lies |
| `PeriodGuard.WindowsNearTheStartFinish` | packages/kernel/src/recurrence/expand.ts:287-290 | with COUNT it does not while the window ends within five centuries of DTSTART |
| `WalkEnds.WalkListsItsReach` | packages/kernel/src/recurrence/expand.ts:270-318 | an expansion, ended or cut short, lists exactly the window's instances before the end of its reach, refuses exactly when they are more than the limit, and reports the rule exhausted only when no instance lies beyond |
| `WalkEnds.WindowsList` | packages/kernel/src/recurrence/expand.ts:270-318 | for windows of up to five centuries that reach is the whole rule without COUNT, and with COUNT the walk's share of periods from DTSTART on |
| `WalkEnds.ReachIsCenturies` | packages/kernel/src/recurrence/expand.ts:287-290 | that share covers over five centuries from DTSTART, whatever the frequency |
| `WalkEnds.ExhaustedIff` | packages/kernel/src/recurrence/expand.ts:287-310 | a walk that ends reports the rule exhausted if and only if no instance is left at or past the window's end and a period it opens holds a date the rule produces past its UNTIL or COUNT |
| `WalkEnds.ExhaustionIsMissed` | packages/kernel/src/recurrence/expand.ts:287-305 | a rule that is over after its first day is reported unfinished, with nothing listed, over every window after that day which closes before the day the rule would next produce |
| `WalkEnds.SuchARule` | packages/kernel/src/recurrence/expand.ts:302-305 | there is such a rule and such a window for every first day |
| `NextOccurrence.NextOccurrenceAfter` | packages/kernel/src/recurrence/next-occurrence.ts:46-71 | the stepping loop computes the recursive search below, giving up and ended returned alike |
| `NextOccurrence.NextOccurrenceIsFirst` | packages/kernel/src/recurrence/next-occurrence.ts:31-71 | for every rule, what is found is the first instance strictly after the instant; nothing because the rule has ended means no instance follows ever; nothing because of the step cap means none in the rule's reach follows up to the span covered; a refusal means a window with no instance before it holds too many |
| `NextOccurrence.SearchFindsIff` | packages/kernel/src/recurrence/next-occurrence.ts:46-71 | the first later instance is returned if and only if it is within the guard's reach and the window of the search that holds it holds no more than the limit; with more it is refused, and out of reach or past every window nothing comes back |
| `NextOccurrence.SearchFindsNothing` | packages/kernel/src/recurrence/next-occurrence.ts:46-71 | when no instance in reach follows, nothing is found and nothing refused, however many steps are taken |
| `NextOccurrence.SoonIsFindable` | packages/kernel/src/recurrence/next-occurrence.ts:9-29 | a first later instance within 990 days, less an interval of the rule with a day to spare for each unit, is found if and only if it is within the guard's reach |
| `NextOccurrence.GivingUpTakesCenturies` | packages/kernel/src/recurrence/next-occurrence.ts:9-15 | the step cap is reached only more than five centuries past the instant, and before seven |
| `DailyRules.EveryDayInstances` | packages/kernel/src/recurrence/expand.ts:292-310 | the every-day rule's instances are the days from DTSTART on, COUNT of them when it has one |
| `DailyRules.EveryDayIsRefusedIff` | packages/kernel/src/recurrence/next-occurrence.ts:54-67 | the search for a daily rule is refused if and only if the window its next date lies in also holds the date a thousand days later |
| `DailyRules.LateStartIsRefused` | packages/kernel/src/recurrence/next-occurrence.ts:54-67 | in every lawful zone, a daily series that starts 1022 to 1044 days after the instant is refused, though its first date is the next occurrence and in reach |
| `DailyRules.RefusalHappens` | packages/kernel/src/recurrence/next-occurrence.ts:54-67 | there is such a series and instant for every first day |
| `DailyRules.CountOutrunsTheSearch` | packages/kernel/src/recurrence/expand.ts:287-317 | a daily rule with COUNT is walked for 200000 days: a later date is missed by a search that starts a day before it, whose windows hold it |
| `DailyRules.MissHappens` | packages/kernel/src/recurrence/expand.ts:287-317 | with COUNT 300000 the last date is missed so, whatever the first day |
| `RRuleText.Parse` | packages/kernel/src/recurrence/rrule.vo.ts:122-256 | the parser's loops, with its errors in their order, compute the parse function |
| `RRuleText.ReadSegments` | packages/kernel/src/recurrence/rrule.vo.ts:142-151 | reading the NAME=VALUE segments one by one, refusing malformed, empty and repeated ones, gives what the recursive reading gives |
| `RRuleRoundTrip.UntilReadsBack` | packages/kernel/src/recurrence/rrule.vo.ts:93-117 | each of the three forms of UNTIL, printed and parsed, is itself |
| `RRuleRoundTrip.ParseUndoesPrint` | packages/kernel/src/recurrence/rrule.vo.ts:283-325 | parsing what any such rule prints gives that rule again, defaults left out and all three forms of UNTIL included |
| `RRuleRoundTrip.ParsedRulesAreWellFormed` | packages/kernel/src/recurrence/rrule.vo.ts:126-256 | every rule the parser lets through has a positive INTERVAL and COUNT, not both COUNT and UNTIL, real UNTIL dates, and ordinals, month days and months in the ranges its frequency allows |
| `RRuleRoundTrip.CanonicalTextIsStable` | packages/kernel/src/recurrence/rrule.vo.ts:283-287 | printing a parsed rule and parsing that again gives the same rule and the same text |
| `RRuleRoundTrip.TextEqualityIsRuleEquality` | packages/kernel/src/recurrence/rrule.vo.ts:327-329 | two rules print the same text if and only if they are the same rule |
| `RRuleMeaning.ParseIsMeaning` | packages/kernel/src/recurrence/rrule.vo.ts:122-256 | any text is accepted as a rule if and only if, white space and an RRULE: name aside, it is NAME=VALUE segments in any case, no name twice, every name one of the eight, each field of the rule what its part's value denotes (signs, plus signs and leading zeros included) or its default, and the rule keeps to the ranges |
| `RRuleMeaning.DeclinedPartIsNamed` | packages/kernel/src/recurrence/rrule.vo.ts:153-157 | a text whose segments read and which holds one of the nine declined parts is refused as unsupported by the name of the first such, whatever else is wrong with it |
| `RRuleMeaning.UnknownPartIsInvalid` | packages/kernel/src/recurrence/rrule.vo.ts:158-160 | one with no such part that holds a name that is no rule part is refused as invalid, naming the first such |
| `RRuleMeaning.FinerFrequencyIsNamed` | packages/kernel/src/recurrence/rrule.vo.ts:162-166 | HOURLY, MINUTELY and SECONDLY are refused as unsupported by name |
| `RRuleMeaning.RefusedInOrder` | packages/kernel/src/recurrence/rrule.vo.ts:162-256 | a text of known parts that is refused is refused for its first fault in the order FREQ, INTERVAL, COUNT, UNTIL, the two together, BYDAY, BYMONTHDAY, BYMONTH, WKST, and in a list for its first faulty item |
| `RRuleMeaning.SegmentIsRefused` | packages/kernel/src/recurrence/rrule.vo.ts:142-151 | the first segment that is no NAME=VALUE pair, has no value or repeats a name is the one refused, for that |
| `RRuleMeaning.PropertyIsRefused` | packages/kernel/src/recurrence/rrule.vo.ts:127-140 | blank text is refused as empty, RDATE, EXDATE and EXRULE as unsupported, any other property as not an RRULE |
| `RRuleMeaning.SpaceIsWhiteSpace` | packages/kernel/src/recurrence/rrule.vo.ts:127 | what is trimmed is ECMA-262's white space and line terminators |
| `RRuleMeaning.UpperIs` | packages/kernel/src/recurrence/rrule.vo.ts:145-146 | upper-casing maps the 26 letters and nothing else |
| `RRuleMeaning.PrintsCanonically` | packages/kernel/src/recurrence/rrule.vo.ts:278-325 | what a rule prints means it, in the fixed order of parts, without INTERVAL or WKST at their defaults, leading zeros, white space or property name |
| `OccurrenceTable.Reconcile` | packages/core/src/calendar/domain/materialisation.ts:146-174 | the loops compute the plan the lemmas below are about, repeated starts taken once |
| `OccurrenceTable.OccurrenceRepository.ApplyPlan` | packages/persistence/src/repositories/calendar/event-occurrence.repository.ts:67-104 | the table becomes the plan applied to it: deletes, end updates, inserts that skip a taken start; the counts are the rows that came and went |
| `ReconcileCorrect.ReconcileIsCorrect` | packages/core/src/calendar/domain/materialisation.ts:130-174 | after the plan is applied the rows are exactly: those out of scope, untouched; those in scope at a planned start, with the planned end and everything else kept; and new ones at the planned starts that had none. Ids and starts stay unique, and every planned start has its row |
| `ReconcileCorrect.ReconcileIsIdempotent` | packages/core/src/calendar/domain/materialisation.ts:144 | a second reconcile of the same plan is empty |
| `ReconcileCorrect.AgreementNeedsNoPlan` | packages/core/src/calendar/domain/materialisation.ts:134-137 | rows that already agree with what is planned need no plan at all |
| `ReconcileCorrect.AnyPlanKeepsTheTableSound` | packages/persistence/src/repositories/calendar/event-occurrence.repository.ts:67-104 | whatever plan is applied, even one computed from rows that have changed since, ids and starts stay unique |
| `Materialisation.PlanAll` | packages/core/src/calendar/domain/materialisation.ts:100-115 | one planned occurrence per expanded one, in order |
| `Materialisation.Rematerialise` | packages/core/src/calendar/application/rematerialise.ts:27-44 | plan, list, reconcile, apply and move the marker as one change of table and event; a refused expansion changes neither |
| `Horizon.PlannedAsAuthored` | packages/core/src/calendar/domain/materialisation.ts:100-115 | an occurrence is planned to start at its instant and end the authored duration later, or, all day, where the day after as many days as authored begins |
| `Horizon.SeriesStartsAsAuthored` | packages/core/src/calendar/domain/materialisation.ts:90-93 | a series starts at what the clock in its zone showed at the authored start, or at midnight of the authored date |
| `Horizon.OneOffIsPlannedAsAuthored` | packages/core/src/calendar/domain/materialisation.ts:79-88 | an event without a rule is planned once, over its own start and end (all day: from the first instant of its first day to that of the day after its last), with no marker and no scope, wherever the window is |
| `Horizon.OneOffHasOneRow` | packages/core/src/calendar/application/rematerialise.ts:27-44 | and whatever rows it had, afterwards that is its only one |
| `Horizon.DueIff` | packages/core/src/calendar/domain/materialisation.ts:40-45 | what is due are the rule's instances in reach from 400 days before now until 400 days after |
| `Horizon.PlanHoldsTheDueOccurrences` | packages/core/src/calendar/domain/materialisation.ts:74-122 | a plan's starts and ends are exactly the occurrences the rule makes due in the window |
| `Horizon.RematerialiseBringsUpToDate` | packages/core/src/calendar/application/rematerialise.ts:19-44 | whatever rows there were, afterwards those from the window's start on are exactly the due occurrences |
| `Horizon.AdvancingTheHorizonIsConservative` | packages/core/src/calendar/application/rematerialise.ts:27-44 | for an unchanged event whose rows match the plan, rematerialising later deletes and updates nothing, keeps every row as it is, and inserts only past the old window's end |
| `Horizon.NullMarkerStrandsNothing` | packages/core/src/calendar/domain/materialisation.ts:50-55 | a marker of null means no instance of the rule at or past the window's end, and no occurrence that ever falls due there |
| `Horizon.MarkerIs` | packages/core/src/calendar/domain/materialisation.ts:47-55 | the marker is null exactly when the expansion learnt that the rule has ended and nothing is left past the window, and the window's end otherwise |
| `Horizon.RematerialisedIsCurrent` | packages/core/src/calendar/application/rematerialise.ts:19-44 | any rematerialisation leaves the state the results on sweeps start from |
| `Horizon.SweepIsSafe` | packages/core/src/calendar/application/commands/materialise-horizon.command.ts:34-74 | the background sweep leaves the table up to date and keeps every row but the pruned ones |
| `Horizon.SweepCatchesUp` | packages/core/src/calendar/application/commands/materialise-horizon.command.ts:34-74 | unless it is refused, after the sweep every occurrence due by now has its row, and when it extends the horizon no row of the event from over 400 days ago is left |
| `Horizon.CancellingIsRecorded` | packages/persistence/src/repositories/calendar/event-occurrence.repository.ts:106-111 | cancelling an occurrence sets its row's cancellation and nothing else, once |
| `Horizon.RunsKeepOccurrences` | packages/core/src/calendar/application/commands/materialise-horizon.command.ts:19-74 | through any run of sweeps and cancellations an occurrence still in the window is the row it was, same id and times, and stays cancelled once cancelled |
| `QueueTopology.ResolveDestinations` | apps/worker/src/relay/queue-topology.ts:33-38 | the destinations of a type are exactly the queues subscribed to it |
| `QueueTopology.DestinationsAreDistinct` | apps/worker/src/relay/queue-topology.ts:28-38 | no queue is a destination twice |
| `QueueTopology.DestinationsKeepOrder` | apps/worker/src/relay/queue-topology.ts:33-38 | destinations come in the topology's own order |
| `OutboxRelay.OpenClaimsNeverShareARow` | packages/persistence/src/repositories/outbox-relay.repository.ts:55-79 | no two open claims share a row, and none holds a published one, whatever ticks run side by side |
| `OutboxRelay.PublishedRowsWereSent` | apps/worker/src/relay/outbox-relay.sweep.ts:231-260 | a published row has been sent to every queue subscribed to its type |
| `OutboxRelay.DuplicatesAreBounded` | apps/worker/src/relay/outbox-relay.sweep.ts:199-205 | messages for a row and a queue never exceed the claims taken on the row, nor one plus the attempts at it that failed or were rolled back |
| `OutboxRelay.PublishedRowIsSentAgainIffOwed` | packages/persistence/src/repositories/outbox-relay.repository.ts:62-78 | some continuation sends a published row to a queue again if and only if a callback that once claimed it still owes it there |
| `OutboxRelay.PublishedRowMayBeOwed` | packages/persistence/src/repositories/outbox-relay.repository.ts:75-78 | a tick that loses its transaction and a second that publishes the row lead to a reachable state in which a published row, sent once, is still owed and can be sent again |
| `OutboxRelay.OnlyExpiredTicksLagBehind` | packages/persistence/src/repositories/outbox-relay.repository.ts:75-78 | a callback that still has a published row has lost its transaction |
| `SqsDelivery.DeletedOnlyIfProcessed` | packages/platform/src/sqs-consumer.ts:93-133 | a message leaves its queue by deletion only, and only when its event is in the ledger; one that is no envelope never does, nor does a dead letter |
| `SqsDelivery.AccountedStays` | packages/platform/src/sqs-consumer.ts:93-133 | an event on a queue, on its dead-letter queue or in the ledger is in one of them after every step |
| `SqsDelivery.DeadLettersWereReceived` | apps/worker/src/relay/queue-topology.ts:11-12 | over any run a dead letter was received exactly as often as its queue allows |
| `SqsDelivery.UnhandledEndsAsDeadLetter` | apps/worker/src/relay/queue-topology.ts:11-12 | a message whose polls all break off is not received for ever: from any state there is a way to the dead-letter queue by receiving it alone, with no handler call and no ledger entry |
| `SqsDelivery.VisibleGoesOn` | apps/worker/src/relay/queue-topology.ts:11-12 | a visible message can be received, or moved to the dead-letter queue once received as often as allowed: never both and never neither |
| `SqsDelivery.RunsAreBoundedIffOneConsumer` | packages/platform/src/sqs-consumer.ts:109-131 | successful handler calls per event never exceed one plus the interruptions before the ledger write, in every run, if and only if no two consumers poll the queue |
| `SqsDelivery.ProcessedIsNeverHandledAgain` | packages/platform/src/sqs-consumer.ts:109-119 | once an event is in the ledger of a queue with one consumer its handler never succeeds again, however often it is delivered |
| `NoLoss.NothingIsLost` | apps/worker/src/relay/outbox-relay.sweep.ts:195-206 | in every reachable state of relays, queues and consumers, crashes included, an appended event is unpublished, or each subscribed queue has it on the queue, on its dead-letter queue or in its ledger |
| `NoLoss.QueuesHoldWhatTheySubscribedTo` | apps/worker/src/relay/outbox-relay.sweep.ts:231-245 | a queue only ever holds envelopes of appended events of a type it subscribes to |
| `RelaySweep.RunOutboxRelaySweep` | apps/worker/src/relay/outbox-relay.sweep.ts:211-268 | which rows a tick marks, which messages it leaves on which queues, and the counts it returns, for every pattern of failed sends and lost replies; an interruption marks nothing and has sent everything up to it |
| `RelaySweep.SendRow` | apps/worker/src/relay/outbox-relay.sweep.ts:236-253 | a row's sends stop at the first that fails |
| `RelaySweep.RepliesAre` | apps/worker/src/relay/outbox-relay.sweep.ts:236-253 | a row's reply count is the number of queues before the first that did not reply, and what arrived is a message for each of those, and one for a lost reply |
| `RelaySweep.TickAddsUp` | apps/worker/src/relay/outbox-relay.sweep.ts:224-268 | every claimed row is published or failed, and the messages that arrived are those counted as sent and one for each lost reply |
| `RelaySweep.OutboxTable.ClaimUnpublished` | packages/persistence/src/repositories/outbox-relay.repository.ts:64-72 | the scan takes the first unpublished rows, up to the limit |
| `RelayRefinement.ClaimIsClaim` | packages/persistence/src/repositories/outbox-relay.repository.ts:64-71 | that scan is a claim as the machine allows, and with no row locked it leaves no older row out and falls short of the limit only when none is left |
| `RelayRefinement.SweepIsARun` | apps/worker/src/relay/outbox-relay.sweep.ts:224-268 | an uninterrupted tick is a run of the relay machine with the same rows, messages and failures |
| `RelayRefinement.InterruptedSweepIsARun` | apps/worker/src/relay/outbox-relay.sweep.ts:45-52 | so is one cut off after a row, which rolls the rows back and keeps what was sent |
| `RelayDrain.HealthyRowsDrain` | apps/worker/src/relay/outbox-relay.sweep.ts:11-17 | behind n rows that can be sent and F under 100 that may fail, a row is published within n / (100 - F) + 1 completed ticks, whatever is appended behind it |
| `RelayDrain.PublishedSomeDayIff` | packages/persistence/src/repositories/outbox-relay.repository.ts:64-71 | when the waiting rows of a set fail at every tick and no other row does, a row outside it is published some day if and only if fewer than 100 of the set are ahead of it |
| `RelayDrain.FullBatchOfFailuresStarves` | packages/persistence/src/repositories/outbox-relay.repository.ts:64-71 | behind a batch or more of rows the queue refuses, a row that could be sent is published after no number of ticks |
| `SqsConsumer.Consumer.PollOnce` | packages/platform/src/sqs-consumer.ts:79-136 | the ledger, the queue, the handler calls and the counts a poll leaves, for every pattern of failing handlers and calls |
| `SqsConsumer.PollIsARun` | packages/platform/src/sqs-consumer.ts:93-133 | a poll is a run of the delivery machine with the same effects |
| `SqsConsumer.PollReturnsIff` | packages/platform/src/sqs-consumer.ts:73-78 | a poll returns if and only if every ledger and delete call it makes replies; then each message is counted exactly once |
| `SqsConsumer.CountsAre` | packages/platform/src/sqs-consumer.ts:79-136 | the counts of a poll that returns are the messages handled now, those whose event was in the ledger or got there through an earlier message of the batch, and those that failed or are no envelope |
| `SqsConsumer.ProcessedEvents.MarkProcessed` | packages/persistence/src/repositories/processed-event.repository.ts:26-33 | marking adds the entry and nothing else, and marking twice is no error |
| `Tasks.UniqueMembers` | packages/core/src/tasks/domain/task.aggregate.ts:112-114 | the members named, all of them and no others, each once, in the order they were first named |
| `Tasks.Task.Create` | packages/core/src/tasks/domain/task.aggregate.ts:136-185 | a new task, or the first refusal in the order the fields are checked |
| `Tasks.Task.SuccessorOf` | packages/core/src/tasks/domain/task.aggregate.ts:187-221 | a fresh task that carries forward everything authored, open, and head of the series |
| `Tasks.Task.Update` | packages/core/src/tasks/domain/task.aggregate.ts:309-385 | the result and the new task of an edit, every refusal in its order |
| `Tasks.Task.Complete` | packages/core/src/tasks/domain/task.aggregate.ts:387-392 | an open task is completed, any other refused unchanged |
| `Tasks.Task.Reopen` | packages/core/src/tasks/domain/task.aggregate.ts:394-399 | a completed task is opened, any other refused unchanged |
| `Tasks.Task.Cancel` | packages/core/src/tasks/domain/task.aggregate.ts:401-406 | an open task is cancelled, any other refused unchanged |
| `Tasks.Task.Assign` | packages/core/src/tasks/domain/task.aggregate.ts:408-414 | a member new to an open task is added last, one already there changes nothing |
| `Tasks.Task.Unassign` | packages/core/src/tasks/domain/task.aggregate.ts:416-424 | a member assigned to an open task is removed, another changes nothing |
| `Tasks.Task.RelinquishHead` | packages/core/src/tasks/domain/task.aggregate.ts:426-429 | the head flag alone is cleared |
| `Tasks.Task.RecordOverdueReported` | packages/core/src/tasks/domain/task.aggregate.ts:431-434 | the overdue marker alone is set, to the due moment |
| `TaskContents.CreatedAsGiven` | packages/core/src/tasks/domain/task.aggregate.ts:136-185 | a task is created from given values if and only if title, notes and rule are in order and a rule has a due date, and then every field is as given or at its stated default |
| `TaskContents.CreationIsRefused` | packages/core/src/tasks/domain/task.aggregate.ts:151-160 | a refusal names the first thing wrong: title, notes, rule, missing due date |
| `TaskContents.EditIsAsAsked` | packages/core/src/tasks/domain/task.aggregate.ts:318-385 | an edit is accepted if and only if the task is open, what it asks for is in order, the rule of a series changes only from its head and no rule is left without a due date; the task then holds what was asked, and what was there where nothing was asked |
| `TaskContents.EditIsRefused` | packages/core/src/tasks/domain/task.aggregate.ts:318-383 | a refusal of an edit names the first thing wrong: state, title or notes, the rule's text, a series that is not this task's to change, a rule without a due date |
| `TaskContents.OperationsTouchTheirOwn` | packages/core/src/tasks/domain/task.aggregate.ts:305-434 | who a task is never changes, only edits touch what was authored, only transitions the state, only assigning the assignees, only the sweep the marker; a change is dated and nothing else is |
| `TaskContents.TransitionsAreRecorded` | packages/core/src/tasks/domain/task.aggregate.ts:387-434 | completing and cancelling record who and when, and the marker is the due moment |
| `TaskContents.CompletingIsUndone` | packages/core/src/tasks/domain/task.aggregate.ts:387-399 | reopening undoes completing but for version and date |
| `TaskContents.AssigningIsUndone` | packages/core/src/tasks/domain/task.aggregate.ts:408-424 | unassigning undoes assigning but for version and date, order of assignees included |
| `TaskContents.SameDueIff` | packages/core/src/tasks/domain/due.ts:96-103 | two due dates are the same if and only if they are equal, or two times in one zone at one moment |
| `TaskRuns.CreatedHasShape` | packages/core/src/tasks/domain/task.aggregate.ts:159-183 | a created task has the shape, and is a head exactly when it has a series |
| `TaskRuns.UpdateIsAllOrNothing` | packages/core/src/tasks/domain/task.aggregate.ts:309-385 | a refused edit leaves the task as it was; an accepted one reports exactly the groups of fields that differ, moves anchor, series and head flag only when the rule changes, and only from a head or a task without a series |
| `TaskRuns.AnchorMovesOnlyWithTheRule` | packages/core/src/tasks/domain/task.aggregate.ts:352-377 | the anchor moves only in an edit that changes the rule, to the due date the task has after it, and is dropped with the rule |
| `TaskRuns.RunsKeepShape` | packages/core/src/tasks/domain/task.aggregate.ts:318-434 | through any operations a rule goes with an anchor, a due date and a series, a head has a rule, assignees stay distinct, the series stays, and a member of it that is not its head never becomes it |
| `TaskRuns.CancelledIsFinal` | packages/core/src/tasks/domain/task.aggregate.ts:401-406 | a cancelled task stays as it is through any operations but for its two markers |
| `TaskRuns.VersionCountsChanges` | packages/core/src/tasks/domain/task.aggregate.ts:305-434 | over any operations the version rises by the number of changes members made: none for refusals, for edits that change nothing, or for markers |
| `Successors.SpawnSuccessor` | packages/core/src/tasks/application/commands/close-task.command.ts:37-72 | the head gives up its flag exactly when it gets a successor, which is due where the successor rule says |
| `Successors.CloseTask` | packages/core/src/tasks/application/commands/close-task.command.ts:75-154 | closing changes the task and makes its successor together, or changes nothing |
| `TaskBoard.ClosingIs` | packages/core/src/tasks/application/commands/close-task.command.ts:37-154 | a closing is refused only for a task that is not open or a search that fails; else it records how, by whom and when, has a successor if and only if the whole series was not cancelled and the successor rule gives a due date, and only then gives up the flag; the successor carries everything authored forward |
| `SuccessorChain.SuccessorDueIsFirst` | packages/core/src/tasks/domain/successor.ts:6-49 | for every rule the successor is due on the first instance, counted from the series' anchor, after both the head's due moment and its closing; there is none only when no instance follows, or none in reach for five centuries; a refusal means a window with no instance before it holds too many |
| `SuccessorChain.SuccessorReturnsToTheSeries` | packages/core/src/tasks/domain/successor.ts:17-19 | however the head's own due date was moved, its successor is due on the first instance's date, at the series' time of day and in the head's zone |
| `SuccessorChain.SuccessorIsDueIff` | packages/core/src/tasks/domain/successor.ts:24-49 | given the first instance after both, the successor is due on it if and only if it is within the guard's reach and the search's window for it is not too dense |
| `SuccessorChain.NothingFollows` | packages/core/src/tasks/domain/successor.ts:21-22 | when no instance follows both there is no successor and no error |
| `SuccessorChain.CreatedIsInSeries` | packages/core/src/tasks/domain/task.aggregate.ts:136-185 | a task created with a rule is a head these results apply to if and only if its due date is a real one from year 1 on and its zone is lawful |
| `SuccessorChain.RuleChangeIsInSeries` | packages/core/src/tasks/domain/task.aggregate.ts:352-377 | and so is every task an edit gives a rule, or another rule |
| `SuccessorChain.ClosedEarlyAdvancesOneDateIff` | packages/core/src/tasks/domain/successor.ts:13 | closed by its due moment a task is followed by the next date its rule schedules, if and only if it is due at a time or that date is not the next day, and the search can find that date |
| `SuccessorChain.ClosedEarlyAdvancesSoonIff` | packages/core/src/tasks/domain/successor.ts:13 | for a date within some 990 days, if and only if it is due at a time or that date is not the next day, and the date is within the guard's reach, as every date of a rule without COUNT is |
| `SuccessorChain.MovedBackCannotBeClosed` | packages/core/src/tasks/application/commands/close-task.command.ts:37-154 | the head of a daily series edited to fall due 1022 to 1044 days before the series starts can neither be completed nor cancelled by itself while that lasts: closing it is refused as too dense |
| `SuccessorChain.LastDateIsDropped` | packages/core/src/tasks/domain/due.ts:79-94 | a date-only task closed early the day before its rule's last date has no successor: that date is never created |
| `SuccessorChain.DailySkipsADay` | packages/core/src/tasks/domain/successor.ts:24-49 | a daily date-only task closed early is followed by the day after next, though the next day is scheduled |
| `SuccessorChain.DailyTwiceStopsAfterOne` | packages/core/src/tasks/domain/successor.ts:17-22 | with COUNT 2 its series ends after one task |
| `SuccessorChain.MomentOf` | packages/core/src/tasks/domain/due.ts:79-94 | a scheduled date's due moment is the series' instant on the following day, a scheduled time's is its own |
| `SuccessorChain.ClosingLinks` | packages/core/src/tasks/application/commands/close-task.command.ts:37-72 | closing a head and then working on its successor, short of its due date and rule, continues the chain |
| `SuccessorChain.DueMomentsAscend` | packages/core/src/tasks/domain/successor.ts:13-15 | along a chain of closings due moments strictly ascend, and each successor is due after the closing that made it |
| `SuccessorChain.CountEndsTheSeries` | packages/core/src/tasks/domain/successor.ts:17-19 | a rule with COUNT n yields at most n successors however late each head is closed, one fewer when the first task's own date counts |
| `TaskBoard.OneHeadPerSeries` | packages/core/src/tasks/application/commands/close-task.command.ts:28-36 | whatever members do, at most one task of a series is its head |
| `TaskBoard.OneSuccessorPerTask` | packages/core/src/tasks/application/commands/close-task.command.ts:34-35 | no task is succeeded twice, not even one closed, reopened and closed again |
| `TaskBoard.CancelledSeriesIsOver` | packages/core/src/tasks/application/commands/close-task.command.ts:112-154 | cancelling a whole series is accepted of every open head and ends it for good: the row stays cancelled by that member at that time and keeps its flag, and no later run of the board adds a task to the series |
| `SweepScheduler.Scheduler.Start` | apps/worker/src/scheduler/scheduler.ts:118-132 | every sweep is armed, or a started scheduler throws unchanged |
| `SweepScheduler.Scheduler.BeginStop` | apps/worker/src/scheduler/scheduler.ts:139-152 | every known timer is cleared, and the call answers at once or waits for the runs it found |
| `SweepScheduler.Scheduler.EndStop` | apps/worker/src/scheduler/scheduler.ts:161-175 | the waiting call answers whether it was in time, and the scheduler takes itself to be stopped |
| `SweepScheduler.Scheduler.Fire` | apps/worker/src/scheduler/scheduler.ts:177-220 | a timer's tick arms the next one first, then runs the sweep unless it is in flight or stopping |
| `SweepScheduler.Scheduler.Settle` | apps/worker/src/scheduler/scheduler.ts:212-242 | a run's end, success or throw, is recorded on its own sweep |
| `SweepScheduler.Scheduler.CheckStall` | apps/worker/src/scheduler/scheduler.ts:261-276 | an alert is raised exactly on a stall not yet reported |
| `SchedulerSafety.NeverTwoRuns` | apps/worker/src/scheduler/scheduler.ts:191-220 | over every interleaving at most one run of a sweep is in flight, and one begins only when none is and the scheduler is not stopping |
| `SchedulerSafety.ThrowingSweepTicksAgain` | apps/worker/src/scheduler/scheduler.ts:194-199 | a sweep that throws still has a tick pending |
| `SchedulerSafety.OneTimerPerSweep` | apps/worker/src/scheduler/scheduler.ts:177-189 | at most one timer of a sweep is pending, in every run where no start is taken up while a stop waits |
| `SchedulerSafety.StopTellsTheTruth` | apps/worker/src/scheduler/scheduler.ts:134-175 | in such a run a stop that answers true leaves no run of any sweep in flight |
| `SchedulerSafety.StoppedCanStartAgain` | apps/worker/src/scheduler/scheduler.ts:118-175 | in such a run a stop that has answered, in time or not, leaves no timer and a scheduler that a start arms again; before that a start changes nothing |
| `SchedulerSafety.NoRunBeginsWhileAStopWaits` | apps/worker/src/scheduler/scheduler.ts:140-146 | in such a run no timer is left to fire until a waiting stop returns |
| `SchedulerSafety.OverlapIsReachable` | apps/worker/src/scheduler/scheduler.ts:161-174 | from every start, two overlapping stops lead to a state where a start is taken up while one still waits |
| `SchedulerSafety.DisorderDoublesTimers` | apps/worker/src/scheduler/scheduler.ts:119-175 | from every state where a start can be taken up while a stop waits there is a way to a sweep with two pending timers |
| `SchedulerSafety.DisorderMakesStopLie` | apps/worker/src/scheduler/scheduler.ts:148-170 | from every state where a start can be taken up while a stop waits for the run of one sweep beside others, whatever else it waits for, there is a way to its answering true while a run is in flight |
| `SchedulerSafety.StopCanLie` | apps/worker/src/scheduler/scheduler.ts:118-175 | such a state, and so the false answer, is reached from every start with two sweeps or more |
| `SchedulerSafety.AlertsAreForSuccesses` | apps/worker/src/scheduler/scheduler.ts:261-276 | a stall is reported once: alerts of a sweep never outnumber its successes |
| `SchedulerSafety.AlertedIff` | apps/worker/src/scheduler/scheduler.ts:222-276 | after any run a check raises the alert if and only if the sweep has succeeded, that was more than three cadences ago, and no check since then has found it so |

## Left out

- The runtime's zone data (`Intl`), zone names and their validation: a zone is any offset function, and offsets are whole seconds where the source divides by minutes.
- JavaScript's number and `Date` limits: INTERVAL, COUNT and instants are unbounded integers.
- `String.prototype.toUpperCase` beyond ASCII: the parser's upper-casing leaves other letters alone, where the source would fold a few of them into ASCII ones.
- The property regular expression's capture of error texts: refusals carry their reason as a value, not as a sentence.
- Dates of a rule with COUNT past its reach, over five centuries after DTSTART, where the guard on periods ends the walk: the search and the materialisation never see them, and what is due is stated without them.
- Rows appended at the very same `occurredAt`: the drain results take such rows in a fixed order, where the query leaves it open.
- `PublicHolidayProvider`, which the expander accepts and never consults.
- DTSTART before year 1.
- Order of rows in `listForEvent`: a table is a sequence without two rows at one start, so the order carries nothing.
- Counts returned for ids that are not there, and the family id a row carries.
- Outbox events, audit entries, visibility filters, optimistic version checks and row-level security around each command.
- Pruning of series the sweep no longer visits, and occurrences of one-off events after their timing changes.
- The in-memory unit of work the application's own tests use, with its staged commit: the table's semantics here is that of the repository's statements.
- Retention limits of the queue service, message size, and the order of messages: a queue is a set of copies.
- The lag and depth readings of the relay, its alerts and log lines, and the heartbeat file.
- Relays running with different topologies: the topology is fixed for a run.
- Wire formats of due dates and times (`parseDue`, `parseLocalTime`): a due date's month is known to be a month.
- The scheduler's start-up jitter and the lengths of its timers: a pending timer may fire at any time.
- Family, identity, invitation and session aggregates, the API, the mobile app and infrastructure.
