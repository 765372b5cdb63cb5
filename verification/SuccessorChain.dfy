// A recurring series of tasks as a chain of closings: where each successor falls due, and when the series ends.
module SuccessorChain {
  import opened Prelude
  import opened CivilDate
  import opened ZonedTime
  import opened Rules
  import opened Expand
  import opened ExpandExact
  import opened NextOccurrence
  import opened DailyRules
  import opened WalkEnds
  import opened Dues
  import opened Tasks
  import opened Successors
  import TaskRuns

  // --- What the search finds ---------------------------------------------------------------------------------------

  ghost predicate IsLaterInstance(s: Series, after: int, o: Occurrence)
    requires s.Valid()
  {
    exists n :: IsInstance(s, n) && o == OccurrenceOn(s, n) && after < InstantOn(s, n)
  }

  // Whatever a walk lists is an instance in its window, even one the guard cut short.
  lemma ListedIsAnInstance(s: Series, w: Window)
    requires s.Valid() && s.Parsed() && w.limit >= 0
    ensures match Walk(s, w).Result()
            case Ok(e) => e.occurrences != [] ==> IsLaterInstance(s, w.from - 1, e.occurrences[0])
            case Err(_) => true
  {
    hide Walk, IsInstance, InstantOn, LocalOn, Lawful, UntilAllowed, Usable, DayNumber, MonthLength, InstancesIn,
         PeriodDay;
    if Walk(s, w).Finished? { WalkIsExact(s, w); } else { CutShortIsSound(s, w); }
    match Walk(s, w).Result() {
      case Err(_) =>
      case Ok(e) =>
        if e.occurrences != [] {
          var n := DayOf(e.occurrences[0]);
          InstanceInWindow(s, w.from, w.to, n);
        }
    }
  }

  lemma {:induction false} FoundIsAnInstance(s: Series, from: int, spanDays: int, steps: int)
    requires s.Valid() && s.Parsed() && 0 <= spanDays
    ensures match SearchFrom(s, from, spanDays, steps) case Found(o) => IsLaterInstance(s, from - 1, o) case _ => true
    decreases steps
  {
    hide Walk, IsInstance, InstantOn, LocalOn, Lawful, UntilAllowed, Usable;
    if steps > 0 {
      ListedIsAnInstance(s, StepWindow(from, spanDays));
      FoundIsAnInstance(s, from + spanDays * MS_PER_DAY, NextSpan(spanDays), steps - 1);
    }
  }

  // --- One closing -------------------------------------------------------------------------------------------------

  // The due date is of the kind the series was anchored with, and at the anchor's time of day.
  ghost predicate Anchored(p: TaskProps) {
    && p.due.Some? && p.recurrenceAnchor.Some?
    && var anchor := p.recurrenceAnchor.value;
       match p.due.value
       case OnDate(_, _) => SecondOfDay(anchor) == 0 && TimeOfDay(anchor)
       case AtTime(_, time, _) => anchor == LocalDateTime(anchor.date, time.hour, time.minute, 0)
  }

  // The open head of a series whose due date nobody has moved to another kind or time.
  ghost predicate InSeries(p: TaskProps, zones: Zones) {
    Recurring(p) && SeriesOf(p, zones).Valid() && Anchored(p)
  }

  // A head anchored at its own due date.
  lemma AnchorsFit(p: TaskProps, zones: Zones)
    requires Recurring(p) && p.recurrenceAnchor == Some(DueLocalDateTime(p.due.value))
    ensures InSeries(p, zones) <==> Usable(DueLocalDateTime(p.due.value)) && Lawful(zones(p.due.value.timeZone))
  {
    hide Lawful, WellFormed, Usable;
  }

  // A task created with a rule begins a series, wherever its due date and zone are ones this model covers.
  lemma CreatedIsInSeries(params: NewTask, zones: Zones)
    requires Created(params).Ok? && Created(params).value.recurrenceRule.Some?
    ensures var p := Created(params).value;
            && p.due.Some?
            && (InSeries(p, zones) <==> Usable(DueLocalDateTime(p.due.value)) && Lawful(zones(p.due.value.timeZone)))
  {
    hide ValidateTitle, NormaliseNotes, ParseTaskRule, DueLocalDateTime, InSeries, Usable, Lawful;
    AnchorsFit(Created(params).value, zones);
  }

  // And so does an edit that gives a task a rule, or another rule: whatever had been moved before is forgotten.
  lemma RuleChangeIsInSeries(p: TaskProps, patch: TaskPatch, now: int, newSeriesId: int, zones: Zones)
    requires TaskRuns.Shape(p)
    requires var q := Updated(p, patch, now, newSeriesId, zones);
             q.recurrenceRule.Some? && q.recurrenceRule != p.recurrenceRule
    ensures var q := Updated(p, patch, now, newSeriesId, zones);
            && q.due.Some?
            && (InSeries(q, zones) <==> Usable(DueLocalDateTime(q.due.value)) && Lawful(zones(q.due.value.timeZone)))
  {
    hide Updated, UpdateResult, DueMomentOf, DueLocalDateTime, SameDue, InSeries, Usable, Lawful;
    TaskRuns.UpdateIsAllOrNothing(p, patch, now, newSeriesId, zones);
    AnchorsFit(Updated(p, patch, now, newSeriesId, zones), zones);
  }

  // The scheduled day of a due date, as a moment: for a date the end of that day, for a time that very occurrence.
  lemma MomentOf(p: TaskProps, zones: Zones, n: int)
    requires InSeries(p, zones) && n >= StartDay(SeriesOf(p, zones))
    ensures var s := SeriesOf(p, zones);
            DueMomentOf(DueOn(p.due.value, LocalOn(s, n)), zones)
              == InstantOn(s, if p.due.value.OnDate? then n + 1 else n)
  {
    hide DayNumber, MonthLength, ToEpochDay, FromEpochDay, LocalToInstant, Lawful, UntilAllowed, WellFormed, Usable;
    UsableOn(SeriesOf(p, zones), n);
  }

  lemma LaterMoment(p: TaskProps, zones: Zones, n: int)
    requires InSeries(p, zones) && n >= StartDay(SeriesOf(p, zones))
    ensures InstantOn(SeriesOf(p, zones), n) <= DueMomentOf(DueOn(p.due.value, LocalOn(SeriesOf(p, zones), n)), zones)
  {
    hide DueMomentOf, DueOn, LocalOn, InstantOn, Anchored, Expand.Series.Valid;
    MomentOf(p, zones, n);
    InstantsAscend(SeriesOf(p, zones), n, n + 1);
  }

  // A successor falls due on an instance after both the head's due moment and its closing.
  lemma SuccessorIsOnAnInstance(p: TaskProps, closedAt: int, zones: Zones) returns (n: int)
    requires InSeries(p, zones)
    requires SuccessorDueOf(p, closedAt, zones).Ok? && SuccessorDueOf(p, closedAt, zones).value.Some?
    ensures var s, due := SeriesOf(p, zones), SuccessorDueOf(p, closedAt, zones).value.value;
            && IsInstance(s, n) && due == DueOn(p.due.value, LocalOn(s, n))
            && Max(DueMomentOf(p.due.value, zones), closedAt) < InstantOn(s, n) <= DueMomentOf(due, zones)
  {
    hide SearchFrom, IsInstance, InstantOn, LocalOn, DueMomentOf, Expand.Series.Valid, Anchored, DueOn;
    var s, after := SeriesOf(p, zones), Max(DueMomentOf(p.due.value, zones), closedAt);
    var steps := MAX_STEPS;
    SpanIsNatural(s.rule);
    FoundIsAnInstance(s, after + 1, InitialSpanDays(s.rule), steps);
    var o := SearchAfter(s, after).occurrence;
    n :| IsInstance(s, n) && o == OccurrenceOn(s, n) && after < InstantOn(s, n);
    InstancesStart(s, n);
    LaterMoment(p, zones, n);
  }

  lemma SpanIsNatural(r: Rule)
    requires WellFormed(r)
    ensures 0 <= InitialSpanDays(r) <= MAX_SPAN_DAYS
  {
    hide UntilAllowed;
  }

  lemma InstancesStart(s: Series, n: int)
    requires s.Valid() && IsInstance(s, n)
    ensures n >= StartDay(s) && Recurs(s, n)
  {}

  ghost function SearchedFrom(p: TaskProps, closedAt: int, zones: Zones): int
    requires p.due.Some?
  {
    Max(DueMomentOf(p.due.value, zones), closedAt)
  }

  // The successor's due date is the first instance, counted from the series' anchor, after both the head's due moment
  // and its closing; there is none only when no instance follows, or none in the walk's reach for over five centuries.
  lemma SuccessorDueIsFirst(p: TaskProps, closedAt: int, zones: Zones)
    requires InSeries(p, zones)
    ensures var s, after := SeriesOf(p, zones), SearchedFrom(p, closedAt, zones);
            match SuccessorDueOf(p, closedAt, zones)
            case Err(RecurrenceTooDense(limit)) =>
              exists from, to :: after < from && NoneBetween(s, after, from) && to <= from + MAX_SPAN_DAYS * MS_PER_DAY
                                 && |ReachedIn(s, from, to)| > limit == MAX_OCCURRENCES
            case Ok(Some(due)) => exists o :: IsFirstAfter(s, after, o) && due == DueOn(p.due.value, o.local)
            case Ok(None) =>
              || (forall n :: IsInstance(s, n) ==> InstantOn(s, n) <= after)
              || exists to :: to > after + 193_980 * MS_PER_DAY && NoneBetween(s, after, to)
  {
    hide SearchFrom, IsInstance, InstantOn, LocalOn, DueMomentOf, Expand.Series.Valid, Anchored, DueOn, IsFirstAfter,
         NoneBetween, ReachedIn;
    var s, after := SeriesOf(p, zones), SearchedFrom(p, closedAt, zones);
    NextOccurrenceIsFirst(s, after);
    if SearchAfter(s, after).GaveUp? { GivingUpTakesCenturies(s, after); }
  }

  // However the head's own due date was moved, its successor's is back in the series: the first instance's date, and at
  // a time the series' time of day, in the head's zone.
  lemma SuccessorReturnsToTheSeries(p: TaskProps, closedAt: int, zones: Zones)
    requires Recurring(p) && SeriesOf(p, zones).Valid()
    requires SuccessorDueOf(p, closedAt, zones).Ok? && SuccessorDueOf(p, closedAt, zones).value.Some?
    ensures var s, due := SeriesOf(p, zones), SuccessorDueOf(p, closedAt, zones).value.value;
            && due.timeZone == p.due.value.timeZone && due.OnDate? == p.due.value.OnDate?
            && exists n :: FallsFirst(s, SearchedFrom(p, closedAt, zones), n)
                           && DueLocalDateTime(due) == if due.OnDate? then LocalDateTime(LocalOn(s, n).date, 0, 0, 0)
                                                       else LocalOn(s, n).(second := 0)
  {
    hide SearchFrom, IsInstance, InstantOn, DueMomentOf, Expand.Series.Valid, FallsFirst, NoneBetween, ReachedIn;
    NextOccurrenceIsFirst(SeriesOf(p, zones), SearchedFrom(p, closedAt, zones));
  }

  // Where an instance falls first after the two, the successor is due on it if and only if the search finds it: it is
  // in the walk's reach, and the window it lies in holds no more than the limit.
  lemma SuccessorIsDueIff(p: TaskProps, closedAt: int, zones: Zones, n: int)
    requires InSeries(p, zones)
    requires FallsFirst(SeriesOf(p, zones), SearchedFrom(p, closedAt, zones), n)
    ensures var s := SeriesOf(p, zones);
            SuccessorDueOf(p, closedAt, zones) == Ok(Some(DueOn(p.due.value, LocalOn(s, n))))
            <==> Findable(s, SearchedFrom(p, closedAt, zones), n)
  {
    hide SearchAfter, FallsFirst, InstantOn, LocalOn, DueMomentOf, Expand.Series.Valid, Anchored, InReach, ReachedIn,
         Rung, DueOn;
    SearchFindsIff(SeriesOf(p, zones), SearchedFrom(p, closedAt, zones), n);
  }

  // When no instance in reach follows, the series ends.
  lemma NothingFollows(p: TaskProps, closedAt: int, zones: Zones)
    requires InSeries(p, zones)
    requires var s := SeriesOf(p, zones);
             forall n :: IsInstance(s, n) && InReach(s, n) ==> InstantOn(s, n) <= SearchedFrom(p, closedAt, zones)
    ensures SuccessorDueOf(p, closedAt, zones) == Ok(None)
  {
    hide SearchFrom, IsInstance, InstantOn, DueMomentOf, Expand.Series.Valid, Anchored, InReach, DueOn;
    var s, after, steps := SeriesOf(p, zones), SearchedFrom(p, closedAt, zones), MAX_STEPS;
    SpanIsNatural(s.rule);
    SearchFindsNothing(s, after, after + 1, InitialSpanDays(s.rule), steps);
  }

  // --- A chain of closings -----------------------------------------------------------------------------------------

  // The next head: the successor, its due date and rule untouched since.
  ghost predicate Link(p: TaskProps, closedAt: int, q: TaskProps, zones: Zones) {
    && SuccessorDueOf(p, closedAt, zones).Ok? && SuccessorDueOf(p, closedAt, zones).value.Some?
    && q.due == SuccessorDueOf(p, closedAt, zones).value && q.isSeriesHead
    && q.recurrenceRule == p.recurrenceRule && q.recurrenceAnchor == p.recurrenceAnchor
  }

  ghost predicate Chain(heads: seq<TaskProps>, closings: seq<int>, zones: Zones) {
    |heads| == |closings| + 1 && forall i :: 0 <= i < |closings| ==> Link(heads[i], closings[i], heads[i + 1], zones)
  }

  // An operation that edits neither the due date nor the rule, and closes nothing.
  predicate LeavesSeriesAlone(op: TaskRuns.Op) {
    match op
    case Update(patch, _, _) => patch.due.None? && patch.recurrenceRule.None?
    case RelinquishHead => false
    case _ => true
  }

  lemma LeftAlone(p: TaskProps, op: TaskRuns.Op, zones: Zones)
    requires LeavesSeriesAlone(op)
    ensures var q := TaskRuns.Step(p, op, zones);
            q.due == p.due && q.isSeriesHead == p.isSeriesHead && q.recurrenceRule == p.recurrenceRule
            && q.recurrenceAnchor == p.recurrenceAnchor
  {
    hide MergedFields, DueMomentOf;
    if op.Update? && MergedFields(p, op.patch, zones).Ok? { PatchLeftAlone(p, op.patch, zones); }
  }

  lemma PatchLeftAlone(p: TaskProps, patch: TaskPatch, zones: Zones)
    requires patch.due.None? && MergedFields(p, patch, zones).Ok?
    ensures var q := MergedFields(p, patch, zones).value.next;
            q.due == p.due && q.isSeriesHead == p.isSeriesHead && q.recurrenceRule == p.recurrenceRule
            && q.recurrenceAnchor == p.recurrenceAnchor
  {
    hide ValidateTitle, NormaliseNotes;
  }

  lemma {:induction false} AllLeftAlone(p: TaskProps, ops: seq<TaskRuns.Op>, zones: Zones)
    requires forall op :: op in ops ==> LeavesSeriesAlone(op)
    ensures var q := TaskRuns.Run(p, ops, zones);
            q.due == p.due && q.isSeriesHead == p.isSeriesHead && q.recurrenceRule == p.recurrenceRule
            && q.recurrenceAnchor == p.recurrenceAnchor
    decreases |ops|
  {
    hide TaskRuns.Step, LeavesSeriesAlone;
    if ops != [] {
      LeftAlone(p, ops[0], zones);
      AllLeftAlone(TaskRuns.Step(p, ops[0], zones), ops[1..], zones);
    }
  }

  // Closing a task and working on its successor, short of its due date and rule, makes a link.
  lemma ClosingLinks(p: TaskProps, how: Closing, byMember: int, now: int, successorId: int, ops: seq<TaskRuns.Op>,
                     zones: Zones)
    requires CloseOutcome(p, how, byMember, now, successorId, zones).Ok?
    requires CloseOutcome(p, how, byMember, now, successorId, zones).value.successor.Some?
    requires forall op :: op in ops ==> LeavesSeriesAlone(op)
    ensures var q := CloseOutcome(p, how, byMember, now, successorId, zones).value.successor.value;
            Link(p, now, TaskRuns.Run(q, ops, zones), zones)
  {
    hide FirstAfter, DueMomentOf, TaskRuns.Run, LeavesSeriesAlone;
    AllLeftAlone(CloseOutcome(p, how, byMember, now, successorId, zones).value.successor.value, ops, zones);
  }

  lemma LinkKeepsSeries(p: TaskProps, closedAt: int, q: TaskProps, zones: Zones) returns (n: int)
    requires InSeries(p, zones) && Link(p, closedAt, q, zones)
    ensures InSeries(q, zones) && SeriesOf(q, zones) == SeriesOf(p, zones)
    ensures var s := SeriesOf(p, zones);
            && IsInstance(s, n) && q.due == Some(DueOn(p.due.value, LocalOn(s, n)))
            && Max(DueMomentOf(p.due.value, zones), closedAt) < InstantOn(s, n) <= DueMomentOf(q.due.value, zones)
  {
    hide SuccessorDueOf, IsInstance, InstantOn, DueMomentOf, WellFormed;
    n := SuccessorIsOnAnInstance(p, closedAt, zones);
  }

  // Every head of a chain is in the series of the first.
  lemma {:induction false} ChainStaysInSeries(heads: seq<TaskProps>, closings: seq<int>, zones: Zones, i: nat)
    requires Chain(heads, closings, zones) && InSeries(heads[0], zones) && i < |heads|
    ensures InSeries(heads[i], zones) && SeriesOf(heads[i], zones) == SeriesOf(heads[0], zones)
  {
    hide Link, InSeries, IsInstance, InstantOn, DueMomentOf, Recurring, SeriesOf;
    if i > 0 {
      ChainStaysInSeries(heads, closings, zones, i - 1);
      assert Link(heads[i - 1], closings[i - 1], heads[i - 1 + 1], zones);
      var _ := LinkKeepsSeries(heads[i - 1], closings[i - 1], heads[i], zones);
    }
  }

  lemma NextMoment(heads: seq<TaskProps>, closings: seq<int>, zones: Zones, i: nat)
    requires Chain(heads, closings, zones) && InSeries(heads[0], zones) && i < |closings|
    ensures heads[i].due.Some? && heads[i + 1].due.Some?
    ensures Max(DueMomentOf(heads[i].due.value, zones), closings[i]) < DueMomentOf(heads[i + 1].due.value, zones)
  {
    hide Link, IsInstance, InstantOn, DueMomentOf, SeriesOf, Anchored, Expand.Series.Valid;
    ChainStaysInSeries(heads, closings, zones, i);
    assert Link(heads[i], closings[i], heads[i + 1], zones);
    var _ := LinkKeepsSeries(heads[i], closings[i], heads[i + 1], zones);
  }

  // Without edits of the due date or the rule, due moments strictly ascend along a series, and every successor is still
  // to come when it is made: dates missed by a late closing are never made up.
  lemma {:induction false} DueMomentsAscend(heads: seq<TaskProps>, closings: seq<int>, zones: Zones, i: nat, j: nat)
    requires Chain(heads, closings, zones) && InSeries(heads[0], zones) && i < j < |heads|
    ensures heads[i].due.Some? && heads[j].due.Some?
    ensures Max(DueMomentOf(heads[i].due.value, zones), closings[i]) < DueMomentOf(heads[j].due.value, zones)
    decreases j
  {
    hide Chain, InSeries, DueMomentOf;
    ChainSizes(heads, closings, zones);
    NextMoment(heads, closings, zones, j - 1);
    if i < j - 1 { DueMomentsAscend(heads, closings, zones, i, j - 1); }
  }

  lemma ChainSizes(heads: seq<TaskProps>, closings: seq<int>, zones: Zones)
    requires Chain(heads, closings, zones)
    ensures |heads| == |closings| + 1
  {}

  lemma LaterRank(s: Series, m: int, n: int)
    requires s.Valid() && m >= StartDay(s) && n >= StartDay(s) && Recurs(s, m) && InstantOn(s, m) < InstantOn(s, n)
    ensures Rank(s, m) < Rank(s, n)
  {
    hide InstantOn, Recurs, Rank, Lawful, Usable, UntilAllowed;
    if n < m { InstantsAscend(s, n, m); }
    RankStep(s, m, m);
    RankGrows(s, m + 1, n);
  }

  // The chain starts at or past the anchor's own occurrence, and that one counts.
  ghost predicate StartsOnTheFirst(p: TaskProps, zones: Zones)
    requires InSeries(p, zones)
  {
    var s := SeriesOf(p, zones);
    Recurs(s, StartDay(s)) && InstantOn(s, StartDay(s)) <= DueMomentOf(p.due.value, zones)
  }

  lemma LinkReaches(p: TaskProps, closedAt: int, q: TaskProps, zones: Zones, s: Series) returns (n: int)
    requires InSeries(p, zones) && SeriesOf(p, zones) == s && Link(p, closedAt, q, zones)
    ensures s.Valid() && IsInstance(s, n) && Recurs(s, n) && n >= StartDay(s) && q.due.Some? && p.due.Some?
    ensures DueMomentOf(p.due.value, zones) < InstantOn(s, n) <= DueMomentOf(q.due.value, zones)
  {
    hide Link, IsInstance, InstantOn, DueMomentOf, Anchored, Expand.Series.Valid, LocalOn, DueOn;
    n := LinkKeepsSeries(p, closedAt, q, zones);
    InstancesStart(s, n);
  }

  // Each successor is one rank further on than the last.
  lemma {:induction false} ChainReaches(heads: seq<TaskProps>, closings: seq<int>, zones: Zones, s: Series, k: nat)
    returns (n: int)
    requires Chain(heads, closings, zones) && InSeries(heads[0], zones) && SeriesOf(heads[0], zones) == s
             && k < |closings|
    ensures s.Valid() && IsInstance(s, n) && Recurs(s, n) && n >= StartDay(s) && heads[k + 1].due.Some?
    ensures InstantOn(s, n) <= DueMomentOf(heads[k + 1].due.value, zones)
    ensures k + (if StartsOnTheFirst(heads[0], zones) then 1 else 0) <= Rank(s, n)
  {
    hide Link, InSeries, IsInstance, InstantOn, DueMomentOf, SeriesOf, Anchored, Recurring, Rank, Recurs,
         Expand.Series.Valid, StartsOnTheFirst;
    ChainStaysInSeries(heads, closings, zones, k);
    assert Link(heads[k], closings[k], heads[k + 1], zones);
    n := LinkReaches(heads[k], closings[k], heads[k + 1], zones, s);
    if k > 0 {
      var m := ChainReaches(heads, closings, zones, s, k - 1);
      LaterRank(s, m, n);
    } else {
      FirstRank(heads[0], zones, s, n);
    }
  }

  lemma FirstRank(p: TaskProps, zones: Zones, s: Series, n: int)
    requires InSeries(p, zones) && SeriesOf(p, zones) == s && n >= StartDay(s)
    requires DueMomentOf(p.due.value, zones) < InstantOn(s, n)
    ensures (if StartsOnTheFirst(p, zones) then 1 else 0) <= Rank(s, n)
  {
    hide InstantOn, DueMomentOf, Anchored, Recurs, Expand.Series.Valid, Rank;
    RankIsNatural(s, n);
    RankIsNatural(s, StartDay(s));
    if StartsOnTheFirst(p, zones) { LaterRank(s, StartDay(s), n); }
  }

  lemma RankIsNatural(s: Series, n: int)
    requires s.Valid()
    ensures Rank(s, n) >= 0
  {}

  // A rule with COUNT n yields at most n successors however late each head is closed, and one fewer when the first
  // task's own date is the first the rule counts.
  lemma CountEndsTheSeries(heads: seq<TaskProps>, closings: seq<int>, zones: Zones)
    requires Chain(heads, closings, zones) && InSeries(heads[0], zones) && heads[0].recurrenceRule.value.count.Some?
    ensures var count := heads[0].recurrenceRule.value.count.value;
            |closings| <= if StartsOnTheFirst(heads[0], zones) then count - 1 else count
  {
    hide Chain, InstantOn, Recurs, Beyond, Rank, DueMomentOf, Anchored, StartsOnTheFirst, Expand.Series.Valid;
    ChainSizes(heads, closings, zones);
    var s := SeriesOf(heads[0], zones);
    if closings != [] {
      var n := ChainReaches(heads, closings, zones, s, |closings| - 1);
    } else {
      CountIsPositive(heads[0]);
    }
  }

  lemma CountIsPositive(p: TaskProps)
    requires p.recurrenceRule.Some? && p.recurrenceRule.value.count.Some?
    ensures p.recurrenceRule.value.count.value >= 1
  {
    hide UntilAllowed;
  }

  // --- Closed early ------------------------------------------------------------------------------------------------

  // The next day the rule produces after one.
  ghost predicate NextScheduled(s: Series, n: int, m: int)
    requires s.Valid()
  {
    n < m && IsInstance(s, m) && forall i :: n < i < m ==> !IsInstance(s, i)
  }

  // The head is due on day n, as its series schedules it.
  ghost predicate DueOnDay(p: TaskProps, zones: Zones, n: int)
    requires InSeries(p, zones)
  {
    var s := SeriesOf(p, zones);
    n >= StartDay(s) && p.due == Some(DueOn(p.due.value, LocalOn(s, n)))
  }

  lemma NextFallsFirst(s: Series, n: int, m: int, from: int)
    requires s.Valid() && StartDay(s) <= n <= from < m && NextScheduled(s, n, m)
    ensures FallsFirst(s, InstantOn(s, from), m)
  {
    hide IsInstance, InstantOn, Expand.Series.Valid, Recurs, StartDay;
    InstancesStart(s, m);
    InstantsAscend(s, from, m);
    forall i | IsInstance(s, i) && InstantOn(s, from) < InstantOn(s, i) ensures InstantOn(s, m) <= InstantOn(s, i) {
      InstancesStart(s, i);
      if i < from { InstantsAscend(s, i, from); }
      if m < i { InstantsAscend(s, m, i); }
    }
  }

  // The day the search starts after: a date is over at the next midnight.
  ghost function DayDue(p: TaskProps, n: int): int
    requires p.due.Some?
  {
    if p.due.value.OnDate? then n + 1 else n
  }

  lemma SearchedFromDay(p: TaskProps, closedAt: int, zones: Zones, n: int)
    requires InSeries(p, zones) && DueOnDay(p, zones, n) && closedAt <= DueMomentOf(p.due.value, zones)
    ensures SearchedFrom(p, closedAt, zones) == InstantOn(SeriesOf(p, zones), DayDue(p, n))
  {
    hide DueMomentOf, InstantOn, LocalOn, Anchored, Expand.Series.Valid, DueOn;
    MomentOf(p, zones, n);
  }

  // Closed by its due moment, a task is followed by the next date its rule schedules, as successor.ts promises, if and
  // only if it is due at a time or that date is not the very next day, and the search finds that date.
  lemma ClosedEarlyAdvancesOneDateIff(p: TaskProps, closedAt: int, zones: Zones, n: int, m: int)
    requires InSeries(p, zones) && DueOnDay(p, zones, n) && NextScheduled(SeriesOf(p, zones), n, m)
    requires closedAt <= DueMomentOf(p.due.value, zones)
    ensures SuccessorDueOf(p, closedAt, zones) == Ok(Some(DueOn(p.due.value, LocalOn(SeriesOf(p, zones), m))))
            <==> (p.due.value.AtTime? || m > n + 1) && Findable(SeriesOf(p, zones), DueMomentOf(p.due.value, zones), m)
  {
    hide IsInstance, InstantOn, LocalOn, DueMomentOf, Anchored, SuccessorDueOf, DayNumber, MonthLength,
         Expand.Series.Valid, InReach, ReachedIn, Rung, FallsFirst, DueOn;
    var s := SeriesOf(p, zones);
    SearchedFromDay(p, closedAt, zones, n);
    if p.due.value.AtTime? || m > n + 1 {
      NextFallsFirst(s, n, m, DayDue(p, n));
      SuccessorIsDueIff(p, closedAt, zones, m);
    } else if SuccessorDueOf(p, closedAt, zones).Ok? && SuccessorDueOf(p, closedAt, zones).value.Some? {
      var i := SuccessorIsOnAnInstance(p, closedAt, zones);
      OtherDate(p, zones, i, m);
    }
  }

  // A date it schedules within some 990 days is found if only it is in reach, as every date of a rule without COUNT is.
  lemma ClosedEarlyAdvancesSoonIff(p: TaskProps, closedAt: int, zones: Zones, n: int, m: int)
    requires InSeries(p, zones) && DueOnDay(p, zones, n) && NextScheduled(SeriesOf(p, zones), n, m)
    requires closedAt <= DueMomentOf(p.due.value, zones)
    requires var s := SeriesOf(p, zones);
             InstantOn(s, m) - DueMomentOf(p.due.value, zones)
             <= (990 - (UnitDays(s.rule.freq) + 1) * s.rule.interval) * MS_PER_DAY
    ensures SuccessorDueOf(p, closedAt, zones) == Ok(Some(DueOn(p.due.value, LocalOn(SeriesOf(p, zones), m))))
            <==> (p.due.value.AtTime? || m > n + 1) && InReach(SeriesOf(p, zones), m)
  {
    hide IsInstance, InstantOn, LocalOn, DueMomentOf, Anchored, SuccessorDueOf, DayNumber, MonthLength,
         Expand.Series.Valid, InReach, ReachedIn, Rung, FallsFirst, DueOn, Findable;
    var s := SeriesOf(p, zones);
    ClosedEarlyAdvancesOneDateIff(p, closedAt, zones, n, m);
    SearchedFromDay(p, closedAt, zones, n);
    if p.due.value.AtTime? || m > n + 1 {
      NextFallsFirst(s, n, m, DayDue(p, n));
      SoonIsFindable(s, DueMomentOf(p.due.value, zones), m);
    }
  }

  lemma OtherDate(p: TaskProps, zones: Zones, i: int, m: int)
    requires InSeries(p, zones)
    ensures DueOn(p.due.value, LocalOn(SeriesOf(p, zones), i)) == DueOn(p.due.value, LocalOn(SeriesOf(p, zones), m)) ==>
              i == m
  {
    hide LocalOn, Anchored, Expand.Series.Valid, DayNumber;
    DayOfLocal(SeriesOf(p, zones), i);
    DayOfLocal(SeriesOf(p, zones), m);
  }

  lemma DayOfLocal(s: Series, m: int)
    ensures Gregorian(LocalOn(s, m).date) && DayNumber(LocalOn(s, m).date) == m
  {}

  // A date scheduled for the day after a date-only task's own, and the last of its rule, never comes: the task closed
  // early ends its series.
  lemma LastDateIsDropped(p: TaskProps, closedAt: int, zones: Zones, n: int)
    requires InSeries(p, zones) && DueOnDay(p, zones, n) && p.due.value.OnDate?
    requires closedAt <= DueMomentOf(p.due.value, zones)
    requires var s := SeriesOf(p, zones); IsInstance(s, n + 1) && forall m :: IsInstance(s, m) ==> m <= n + 1
    ensures SuccessorDueOf(p, closedAt, zones) == Ok(None)
  {
    hide IsInstance, InstantOn, LocalOn, DueMomentOf, Anchored, SuccessorDueOf, Expand.Series.Valid, InReach, DueOn,
         Recurs, StartDay;
    var s := SeriesOf(p, zones);
    SearchedFromDay(p, closedAt, zones, n);
    forall m | IsInstance(s, m) ensures InstantOn(s, m) <= InstantOn(s, n + 1) {
      InstancesStart(s, m);
      if m < n + 1 { InstantsAscend(s, m, n + 1); }
    }
    NothingFollows(p, closedAt, zones);
  }

  // --- Daily tasks -------------------------------------------------------------------------------------------------

  // A daily task due on a date and closed before its midnight is followed by the day after the next; the next day's
  // task is never made.
  lemma DailySkipsADay(p: TaskProps, closedAt: int, zones: Zones, n: int)
    requires InSeries(p, zones) && DueOnDay(p, zones, n) && p.due.value.OnDate?
    requires EveryDay(p.recurrenceRule.value) && p.recurrenceRule.value.count.None?
    requires closedAt <= DueMomentOf(p.due.value, zones)
    ensures var s := SeriesOf(p, zones);
            IsInstance(s, n + 1)
            && SuccessorDueOf(p, closedAt, zones) == Ok(Some(DueOn(p.due.value, LocalOn(s, n + 2))))
  {
    hide IsInstance, InstantOn, LocalOn, DueMomentOf, Anchored, SuccessorDueOf, Expand.Series.Valid, DueOn, Recurs,
         StartDay, EveryDay, FallsFirst, ReachedIn, Rung, PeriodDay;
    var s := SeriesOf(p, zones);
    forall m ensures IsInstance(s, m) <==> m >= StartDay(s) { EveryDayInstances(s, m); }
    SearchedFromDay(p, closedAt, zones, n);
    NextFallsFirst(s, n + 1, n + 2, n + 1);
    InstantsAreNear(s, n + 1);
    EveryDaySpan(s.rule);
    SoonIsFindable(s, InstantOn(s, n + 1), n + 2);
    SuccessorIsDueIff(p, closedAt, zones, n + 2);
  }

  // A daily task due on a date, to be done twice, is done once: closed before its midnight it has no successor.
  lemma DailyTwiceStopsAfterOne(p: TaskProps, closedAt: int, zones: Zones)
    requires InSeries(p, zones) && p.due.value.OnDate? && DueOnDay(p, zones, StartDay(SeriesOf(p, zones)))
    requires EveryDay(p.recurrenceRule.value) && p.recurrenceRule.value.count == Some(2)
    requires closedAt <= DueMomentOf(p.due.value, zones)
    ensures IsInstance(SeriesOf(p, zones), StartDay(SeriesOf(p, zones)) + 1)
    ensures SuccessorDueOf(p, closedAt, zones) == Ok(None)
  {
    hide IsInstance, InstantOn, LocalOn, DueMomentOf, Anchored, SuccessorDueOf, Expand.Series.Valid, DueOn, Recurs,
         StartDay, EveryDay;
    var s := SeriesOf(p, zones);
    forall m ensures IsInstance(s, m) <==> StartDay(s) <= m < StartDay(s) + 2 { EveryDayInstances(s, m); }
    LastDateIsDropped(p, closedAt, zones, StartDay(s));
  }

  // --- A head that cannot be closed --------------------------------------------------------------------------------

  // An edit of the due date and nothing else.
  function OnlyDue(due: Due): TaskPatch { TaskPatch(None, None, None, None, Some(Some(due)), None) }

  // The series stays as it was, and the search starts from the new due moment.
  lemma MovedDue(p: TaskProps, due: Due, editedAt: int, newSeriesId: int, zones: Zones)
    requires Recurring(p) && p.state.Open? && due.timeZone == p.due.value.timeZone
    ensures UpdateResult(p, OnlyDue(due), newSeriesId, zones).Ok?
    ensures var q := Updated(p, OnlyDue(due), editedAt, newSeriesId, zones);
            && Recurring(q) && q.state.Open? && SeriesOf(q, zones) == SeriesOf(p, zones)
            && DueMomentOf(q.due.value, zones) == DueMomentOf(due, zones)
  {
    hide DueMomentOf, ValidateTitle, NormaliseNotes, ParseTaskRule;
  }

  lemma RefusedSuccessor(p: TaskProps, closedAt: int, zones: Zones)
    requires Recurring(p) && SearchAfter(SeriesOf(p, zones), SearchedFrom(p, closedAt, zones)).Result().Err?
    ensures SuccessorDueOf(p, closedAt, zones)
            == Err(SearchAfter(SeriesOf(p, zones), SearchedFrom(p, closedAt, zones)).Result().error)
  {
    hide SearchAfter, DueMomentOf, InitialSpanDays;
  }

  // The head of a daily series, its due date moved to some three years before the series starts, can neither be
  // completed nor cancelled by itself: closing it is refused while that search is, and leaves it as it was.
  lemma MovedBackCannotBeClosed(p: TaskProps, due: Due, editedAt: int, newSeriesId: int, how: Closing, byMember: int,
                                now: int, successorId: int, zones: Zones)
    requires Recurring(p) && p.state.Open? && due.timeZone == p.due.value.timeZone && !how.CancellingSeries?
    requires SeriesOf(p, zones).Valid() && EveryDay(p.recurrenceRule.value) && p.recurrenceRule.value.count.None?
    requires var s, after := SeriesOf(p, zones), Max(DueMomentOf(due, zones), now);
             1022 * MS_PER_DAY < InstantOn(s, StartDay(s)) - after <= 1044 * MS_PER_DAY
    ensures UpdateResult(p, OnlyDue(due), newSeriesId, zones).Ok?
    ensures CloseOutcome(Updated(p, OnlyDue(due), editedAt, newSeriesId, zones), how, byMember, now, successorId, zones)
            == Err(Dense(RecurrenceTooDense(MAX_OCCURRENCES)))
  {
    hide Updated, UpdateResult, SearchAfter, InstantOn, DueMomentOf, Expand.Series.Valid, EveryDay, SuccessorDueOf,
         FallsFirst, InReach, StartDay;
    MovedDue(p, due, editedAt, newSeriesId, zones);
    var q := Updated(p, OnlyDue(due), editedAt, newSeriesId, zones);
    LateStartIsRefused(SeriesOf(p, zones), SearchedFrom(q, now, zones));
    RefusedSuccessor(ClosedBy(q, how, byMember, now), now, zones);
  }
}
