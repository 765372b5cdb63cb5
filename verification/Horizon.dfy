// Rematerialising a recurring event: what the table holds afterwards, and why moving the horizon on disturbs nothing.
module Horizon {
  import opened Prelude
  import opened CivilDate
  import opened ZonedTime
  import opened Rules
  import opened Expand
  import opened ExpandExact
  import opened WalkEnds
  import opened OccurrenceTable
  import opened ReconcileCorrect
  import opened Materialisation

  // The end the event gives its occurrence on day n: a timed one lasts as long as it was authored to, on the night the
  // clocks change too; an all-day one ends where the day after its last begins.
  ghost function EndOn(ev: EventProps, n: int): int
    requires ev.Recurring()
  {
    match ev.timing
    case Timed(startsAt, endsAt) => InstantOn(ev.Series(), n) + (endsAt - startsAt)
    case AllDay(startDate, endDate) =>
      InstantOn(ev.Series(), n + 1 + (ToEpochDay(endDate) - ToEpochDay(startDate)))
  }

  lemma PlannedAsAuthored(ev: EventProps, n: int)
    requires ev.Recurring() && n >= StartDay(ev.Series())
    ensures 1 <= LocalOn(ev.Series(), n).date.month <= 12
    ensures PlanOne(ev, OccurrenceOn(ev.Series(), n)) == Planned(InstantOn(ev.Series(), n), EndOn(ev, n))
  {
    hide DayNumber, FromEpochDay, ToEpochDay, MonthLength, LocalToInstant, FromLocalSeconds, WellFormed, Lawful, Usable;
    UsableOn(ev.Series(), n);
  }

  // A series starts where its event was authored to: at the reading the clock showed then, or on that date.
  lemma SeriesStartsAsAuthored(ev: EventProps)
    requires ev.Recurring()
    ensures var s := ev.Series();
            && s.rule == ev.rule.value && s.zone == ev.zone
            && (match ev.timing
                case Timed(startsAt, _) => LocalOn(s, StartDay(s)) == InstantToLocal(startsAt, ev.zone)
                case AllDay(startDate, _) => LocalOn(s, StartDay(s)) == LocalDateTime(startDate, 0, 0, 0))
  {
    hide DayNumber, FromEpochDay, MonthLength, FromLocalSeconds, WellFormed, Lawful;
    DateOfDay(ev.Dtstart().date, DayNumber(ev.Dtstart().date));
  }

  // An event without a rule is planned once, as it was authored, wherever the window is, with every row of it in scope
  // and no marker; all day, that is what the first occurrence of a series from there would be, and timed too when the
  // clock showed its start for the first time.
  lemma OneOffIsPlannedAsAuthored(ev: EventProps, rule: Rule, w: Window)
    requires ev.Parsed() && ev.rule.None? && ev.(rule := Some(rule)).Recurring()
    ensures var series := ev.(rule := Some(rule));
            var start := InstantOn(series.Series(), StartDay(series.Series()));
            var authored := match ev.timing case Timed(s, _) => s case AllDay(_, _) => start;
            && PlanOccurrences(ev, w)
               == Ok(OccurrencePlan([Planned(authored, authored + (EndOn(series, StartDay(series.Series())) - start))],
                                    None, None))
  {
    hide DayNumber, FromEpochDay, ToEpochDay, MonthLength, LocalToInstant, FromLocalSeconds, WellFormed, Lawful, Usable,
         Walk;
    var series := ev.(rule := Some(rule));
    SeriesStartsAsAuthored(series);
    UsableOn(series.Series(), StartDay(series.Series()));
  }

  // Its rows are then that one alone.
  lemma OneOffHasOneRow(ev: EventProps, t: Table, w: Window)
    requires ev.Parsed() && ev.rule.None? && Sound(t)
    ensures PlanOccurrences(ev, w).Ok? && |PlanOccurrences(ev, w).value.planned| == 1
    ensures var plan := PlanOccurrences(ev, w).value;
            var p, after := plan.planned[0], Reconciled(t, ev.id, plan.planned, plan.scopeFrom);
            && (exists r :: r in after.rows && r.eventId == ev.id)
            && forall r :: r in after.rows && r.eventId == ev.id ==> r.startsAt == p.startsAt && r.endsAt == p.endsAt
  {
    hide StartOfDay, AddDays, Reconciled, Sound, Walk;
    var plan := PlanOccurrences(ev, w).value;
    ReconcileIsCorrect(t, ev.id, plan.planned, plan.scopeFrom);
    var p, after := plan.planned[0], Reconciled(t, ev.id, plan.planned, plan.scopeFrom);
    OnlyPlanned(p, p.startsAt);
    assert plan.planned == [p] && Taken(after.rows, ev.id, p.startsAt);
    forall r | r in after.rows && r.eventId == ev.id ensures r.startsAt == p.startsAt && r.endsAt == p.endsAt {
      assert InScope(r, ev.id, None);
      OnlyPlanned(p, r.startsAt);
    }
  }

  lemma OnlyPlanned(p: Planned, start: int)
    ensures PlannedEnd([p], start) == if start == p.startsAt then Some(p.endsAt) else None
  {
    assert [p][1..] == [];
  }

  // The occurrences the event should have at `now`: its instances in the window around `now` and in the walk's reach,
  // which is all of them without COUNT and five centuries' worth with it, each with its end.
  ghost predicate Due(ev: EventProps, now: int, start: int, end: int)
    requires ev.Recurring()
  {
    var s, w := ev.Series(), MaterialisationWindow(now);
    exists n :: n in ReachedIn(s, w.from, w.to) && InstantOn(s, n) == start && EndOn(ev, n) == end
  }

  // The rows of the event from the window's start on are exactly those occurrences.
  ghost predicate UpToDate(ev: EventProps, t: Table, now: int)
    requires ev.Recurring()
  {
    var from := Some(MaterialisationWindow(now).from);
    && (forall r :: r in t.rows && InScope(r, ev.id, from) ==> Due(ev, now, r.startsAt, r.endsAt))
    && (forall start, end :: Due(ev, now, start, end) ==>
          exists r :: r in t.rows && InScope(r, ev.id, from) && r.startsAt == start)
  }

  // The window reaches 400 days back and 400 days ahead.
  lemma DueIff(ev: EventProps, now: int, start: int, end: int)
    requires ev.Recurring()
    ensures Due(ev, now, start, end) <==>
              exists n :: IsInstance(ev.Series(), n) && InReach(ev.Series(), n) && InstantOn(ev.Series(), n) == start
                          && EndOn(ev, n) == end && now - 400 * MS_PER_DAY <= start < now + 400 * MS_PER_DAY
  {
    hide InstantOn, IsInstance, InReach, ReachedIn, WellFormed, Lawful, Usable, EndOn;
    var s, w := ev.Series(), MaterialisationWindow(now);
    forall n
      ensures n in ReachedIn(s, w.from, w.to) <==> IsInstance(s, n) && InReach(s, n) && w.from <= InstantOn(s, n) < w.to
    {
      ReachedInWindow(s, w.from, w.to, n);
    }
  }

  lemma {:induction false} FirstPlanned(planned: seq<Planned>, i: int)
    requires 0 <= i < |planned|
    requires forall j, k :: 0 <= j < k < |planned| ==> planned[j].startsAt != planned[k].startsAt
    ensures PlannedEnd(planned, planned[i].startsAt) == Some(planned[i].endsAt)
  {
    if i > 0 { FirstPlanned(planned[1..], i - 1); }
  }

  lemma PlannedWhere(planned: seq<Planned>, start: int) returns (i: int)
    requires PlannedEnd(planned, start).Some?
    ensures 0 <= i < |planned| && planned[i].startsAt == start
  {
    PlannedStarts(planned, start);
    i :| 0 <= i < |planned| && planned[i].startsAt == start;
  }

  // The plan is made of exactly the due occurrences, in ascending order of start.
  lemma PlanHoldsTheDueOccurrences(ev: EventProps, now: int)
    requires ev.Recurring()
    ensures match PlanOccurrences(ev, MaterialisationWindow(now))
            case Err(_) =>
              var w := MaterialisationWindow(now); |ReachedIn(ev.Series(), w.from, w.to)| > MAX_OCCURRENCES
            case Ok(plan) =>
              && plan.scopeFrom == Some(MaterialisationWindow(now).from)
              && FromScope(plan.planned, plan.scopeFrom)
              && forall start, end :: PlannedEnd(plan.planned, start) == Some(end) <==> Due(ev, now, start, end)
  {
    hide Walk, InstantOn, ReachedIn, WellFormed, Lawful, Usable, PlanOne, PlannedEnd;
    var s, w := ev.Series(), MaterialisationWindow(now);
    WindowsList(s, w);
    WalkedMonths(s, w);
    match Walk(s, w).Result() {
      case Err(_) =>
      case Ok(e) => ListedAreDue(ev, now, e.occurrences);
    }
  }

  // The occurrences an expansion of the window lists.
  ghost predicate DueList(ev: EventProps, now: int, occurrences: seq<Occurrence>)
    requires ev.Recurring()
  {
    var s, w := ev.Series(), MaterialisationWindow(now);
    && (forall i :: 0 <= i < |occurrences| ==> 1 <= occurrences[i].local.date.month <= 12)
    && Lists(s, occurrences, ReachedIn(s, w.from, w.to))
  }

  lemma ListedAreDue(ev: EventProps, now: int, occurrences: seq<Occurrence>)
    requires ev.Recurring()
    requires var w := MaterialisationWindow(now); Lists(ev.Series(), occurrences, ReachedIn(ev.Series(), w.from, w.to))
    requires forall i :: 0 <= i < |occurrences| ==> 1 <= occurrences[i].local.date.month <= 12
    ensures FromScope(PlanAll(ev, occurrences), Some(MaterialisationWindow(now).from))
    ensures forall start, end :: PlannedEnd(PlanAll(ev, occurrences), start) == Some(end) <==> Due(ev, now, start, end)
  {
    hide PlanAll, PlannedEnd, WellFormed, Lists, PlanOne, ReachedIn, Due, ListedDay, MaterialisationWindow;
    var w := MaterialisationWindow(now);
    var planned := PlanAll(ev, occurrences);
    forall i | 0 <= i < |occurrences| ensures ListedDay(ev, now, occurrences, i) {
      ListedAsPlanned(ev, now, occurrences, i);
    }
    forall start, end ensures PlannedEnd(planned, start) == Some(end) <==> Due(ev, now, start, end) {
      if PlannedEnd(planned, start) == Some(end) { ListedIsDue(ev, now, occurrences, start, end); }
      if Due(ev, now, start, end) { DueIsListed(ev, now, occurrences, start, end); }
    }
    forall i | 0 <= i < |planned| ensures planned[i].startsAt >= w.from { FromItsStart(ev, now, occurrences, i); }
  }

  lemma FromItsStart(ev: EventProps, now: int, occurrences: seq<Occurrence>, i: int)
    requires ev.Recurring() && forall i :: 0 <= i < |occurrences| ==> 1 <= occurrences[i].local.date.month <= 12
    requires ListedDay(ev, now, occurrences, i)
    ensures PlanAll(ev, occurrences)[i].startsAt >= MaterialisationWindow(now).from
  {
    hide PlanAll, PlannedEnd, WellFormed, PlanOne, Due, MaterialisationWindow;
  }

  lemma ListedIsDue(ev: EventProps, now: int, occurrences: seq<Occurrence>, start: int, end: int)
    requires ev.Recurring() && forall i :: 0 <= i < |occurrences| ==> 1 <= occurrences[i].local.date.month <= 12
    requires forall i :: 0 <= i < |occurrences| ==> ListedDay(ev, now, occurrences, i)
    requires PlannedEnd(PlanAll(ev, occurrences), start) == Some(end)
    ensures Due(ev, now, start, end)
  {
    hide PlanAll, PlannedEnd, WellFormed, PlanOne, Due, MaterialisationWindow;
    var i := PlannedWhere(PlanAll(ev, occurrences), start);
    assert ListedDay(ev, now, occurrences, i);
  }

  lemma DueIsListed(ev: EventProps, now: int, occurrences: seq<Occurrence>, start: int, end: int)
    requires ev.Recurring() && DueList(ev, now, occurrences) && Due(ev, now, start, end)
    ensures PlannedEnd(PlanAll(ev, occurrences), start) == Some(end)
  {
    hide PlanAll, PlannedEnd, InstantOn, WellFormed, Lawful, Usable, IsInstance, Lists, PlanOne, ReachedIn, EndOn,
         MaterialisationWindow;
    var s, w := ev.Series(), MaterialisationWindow(now);
    var n :| n in ReachedIn(s, w.from, w.to) && InstantOn(s, n) == start && EndOn(ev, n) == end;
    var i := WhereListed(s, occurrences, ReachedIn(s, w.from, w.to), n);
    ListedAsPlanned(ev, now, occurrences, i);
    ReachedInWindow(s, w.from, w.to, n);
    InstanceStarts(s, n);
    PlannedAsAuthored(ev, n);
  }

  lemma WhereListed(s: Series, occurrences: seq<Occurrence>, days: set<int>, n: int) returns (i: int)
    requires s.Valid() && Lists(s, occurrences, days) && n in days
    ensures 0 <= i < |occurrences| && occurrences[i] == OccurrenceOn(s, n)
  {
    hide InstantOn, LocalOn;
    i :| 0 <= i < |occurrences| && occurrences[i] == OccurrenceOn(s, n);
  }

  // The i-th occurrence is planned, in the window, as due.
  ghost predicate ListedDay(ev: EventProps, now: int, occurrences: seq<Occurrence>, i: int)
    requires ev.Recurring() && forall j :: 0 <= j < |occurrences| ==> 1 <= occurrences[j].local.date.month <= 12
  {
    && 0 <= i < |occurrences|
    && (var p := PlanAll(ev, occurrences)[i];
        && p == PlanOne(ev, occurrences[i]) && p.startsAt >= MaterialisationWindow(now).from
        && Due(ev, now, p.startsAt, p.endsAt) && PlannedEnd(PlanAll(ev, occurrences), p.startsAt) == Some(p.endsAt))
  }

  lemma ListedAsPlanned(ev: EventProps, now: int, occurrences: seq<Occurrence>, i: int)
    requires ev.Recurring() && 0 <= i < |occurrences|
    requires var w := MaterialisationWindow(now); Lists(ev.Series(), occurrences, ReachedIn(ev.Series(), w.from, w.to))
    requires forall j :: 0 <= j < |occurrences| ==> 1 <= occurrences[j].local.date.month <= 12
    ensures ListedDay(ev, now, occurrences, i)
  {
    hide PlanAll, PlannedEnd, InstantOn, LocalOn, WellFormed, Lawful, Usable, IsInstance, EndOn, StartOfDay, ToEpochDay,
         AddDays, DayNumber, MonthLength;
    var s, w := ev.Series(), MaterialisationWindow(now);
    var n := DayOf(occurrences[i]);
    InstanceInWindow(s, w.from, w.to, n);
    InstanceStarts(s, n);
    PlannedAsAuthored(ev, n);
    FirstPlanned(PlanAll(ev, occurrences), i);
  }

  lemma InstanceStarts(s: Series, n: int)
    requires s.Valid() && IsInstance(s, n)
    ensures n >= StartDay(s)
  {}

  // After rematerialising at `now`, the table is up to date at `now`.
  lemma RematerialiseBringsUpToDate(ev: EventProps, t: Table, now: int)
    requires ev.Recurring() && Sound(t)
    ensures match PlanOccurrences(ev, MaterialisationWindow(now))
            case Err(_) => true
            case Ok(plan) =>
              var after := Reconciled(t, ev.id, plan.planned, plan.scopeFrom);
              Sound(after) && UpToDate(ev, after, now)
  {
    hide PlanOccurrences, Reconciled, Due, PlannedEnd, WellFormed, Sound, MaterialisationWindow;
    PlanHoldsTheDueOccurrences(ev, now);
    match PlanOccurrences(ev, MaterialisationWindow(now)) {
      case Err(_) =>
      case Ok(plan) =>
        var after := Reconciled(t, ev.id, plan.planned, plan.scopeFrom);
        ReconcileIsCorrect(t, ev.id, plan.planned, plan.scopeFrom);
        forall start, end | Due(ev, now, start, end)
          ensures exists r :: r in after.rows && InScope(r, ev.id, plan.scopeFrom) && r.startsAt == start
        {
          assert Taken(after.rows, ev.id, start);
          PlannedInScope(plan.planned, plan.scopeFrom, start);
        }
    }
  }

  lemma DueLater(ev: EventProps, now: int, later: int, start: int, end: int)
    requires ev.Recurring() && now <= later
    ensures Due(ev, later, start, end) && start < MaterialisationWindow(now).to ==> Due(ev, now, start, end)
    ensures Due(ev, now, start, end) && start >= MaterialisationWindow(later).from ==> Due(ev, later, start, end)
  {
    hide InstantOn, IsInstance, InReach, ReachedIn, WellFormed, Lawful, Usable, EndOn, EndDay;
    var s, w, v := ev.Series(), MaterialisationWindow(now), MaterialisationWindow(later);
    forall n
      ensures n in ReachedIn(s, w.from, w.to) <==> IsInstance(s, n) && InReach(s, n) && w.from <= InstantOn(s, n) < w.to
      ensures n in ReachedIn(s, v.from, v.to) <==> IsInstance(s, n) && InReach(s, n) && v.from <= InstantOn(s, n) < v.to
    {
      ReachedInWindow(s, w.from, w.to, n);
      ReachedInWindow(s, v.from, v.to, n);
    }
  }

  // Advancing the horizon of an unchanged event is conservative: the plan deletes and updates nothing, every row stays
  // as it is (its id and its cancellation with it), and what is inserted lies at or past the old window's end.
  lemma AdvancingTheHorizonIsConservative(ev: EventProps, t: Table, now: int, later: int)
    requires ev.Recurring() && Sound(t) && now <= later && UpToDate(ev, t, now)
    ensures match PlanOccurrences(ev, MaterialisationWindow(later))
            case Err(_) => true
            case Ok(plan) =>
              var todo := PlanFor(plan.planned, ListForEvent(t.rows, ev.id, plan.scopeFrom));
              && todo.toDelete == [] && todo.toUpdate == []
              && (forall p :: p in todo.toInsert ==> p.startsAt >= MaterialisationWindow(now).to)
              && (forall r :: r in t.rows ==> r in Applied(t, ev.id, todo).rows)
  {
    hide PlanOccurrences, Due, PlannedEnd, WellFormed, Sound, ListForEvent, PlanFor, Applied, InScope, UpToDate,
         MaterialisationWindow;
    PlanHoldsTheDueOccurrences(ev, later);
    match PlanOccurrences(ev, MaterialisationWindow(later)) {
      case Err(_) =>
      case Ok(plan) =>
        KnownRowsAgree(ev, t, now, later, plan.planned);
        AgreementKeepsRows(t, ev.id, plan.planned, plan.scopeFrom);
        OnlyLaterInserts(ev, t, now, later, plan.planned);
    }
  }

  lemma KnownRowsAgree(ev: EventProps, t: Table, now: int, later: int, planned: seq<Planned>)
    requires ev.Recurring() && now <= later && UpToDate(ev, t, now)
    requires forall start, end :: PlannedEnd(planned, start) == Some(end) <==> Due(ev, later, start, end)
    ensures forall r :: r in t.rows && InScope(r, ev.id, Some(MaterialisationWindow(later).from)) ==>
              PlannedEnd(planned, r.startsAt) == Some(r.endsAt)
  {
    hide Due, PlannedEnd, WellFormed, InScope, UpToDate, MaterialisationWindow;
    forall r | r in t.rows && InScope(r, ev.id, Some(MaterialisationWindow(later).from))
      ensures PlannedEnd(planned, r.startsAt) == Some(r.endsAt)
    {
      StillDue(ev, t, now, later, r);
    }
  }

  lemma OnlyLaterInserts(ev: EventProps, t: Table, now: int, later: int, planned: seq<Planned>)
    requires ev.Recurring() && now <= later && UpToDate(ev, t, now)
    requires forall start, end :: PlannedEnd(planned, start) == Some(end) <==> Due(ev, later, start, end)
    ensures var scopeFrom := Some(MaterialisationWindow(later).from);
            forall p :: p in PlanFor(planned, ListForEvent(t.rows, ev.id, scopeFrom)).toInsert ==>
              p.startsAt >= MaterialisationWindow(now).to
  {
    hide Due, PlannedEnd, WellFormed, ListForEvent, PlanFor, InScope, UpToDate, MaterialisationWindow;
    var scopeFrom := Some(MaterialisationWindow(later).from);
    InsertsAreMissing(t, ev.id, planned, scopeFrom);
    forall p | p in PlanFor(planned, ListForEvent(t.rows, ev.id, scopeFrom)).toInsert
      ensures p.startsAt >= MaterialisationWindow(now).to
    {
      if p.startsAt < MaterialisationWindow(now).to { AlreadyThere(ev, t, now, later, p.startsAt, p.endsAt); }
    }
  }

  lemma StillDue(ev: EventProps, t: Table, now: int, later: int, r: Row)
    requires ev.Recurring() && now <= later && UpToDate(ev, t, now)
    requires r in t.rows && InScope(r, ev.id, Some(MaterialisationWindow(later).from))
    ensures Due(ev, later, r.startsAt, r.endsAt)
  {
    hide Due, WellFormed;
    DueLater(ev, now, later, r.startsAt, r.endsAt);
  }

  lemma AlreadyThere(ev: EventProps, t: Table, now: int, later: int, start: int, end: int)
    requires ev.Recurring() && now <= later && UpToDate(ev, t, now)
    requires Due(ev, later, start, end) && start < MaterialisationWindow(now).to
    ensures exists r :: r in t.rows && InScope(r, ev.id, Some(MaterialisationWindow(later).from)) && r.startsAt == start
  {
    hide Due, WellFormed;
    DueLater(ev, now, later, start, end);
    DueInWindow(ev, later, start, end);
  }

  lemma DueInWindow(ev: EventProps, now: int, start: int, end: int)
    requires ev.Recurring() && Due(ev, now, start, end)
    ensures MaterialisationWindow(now).from <= start < MaterialisationWindow(now).to
  {
    hide InstantOn, IsInstance, WellFormed, Lawful, Usable, EndOn, EndDay;
  }

  lemma InsertsAreMissing(t: Table, e: int, planned: seq<Planned>, scopeFrom: Option<int>)
    ensures forall p :: p in PlanFor(planned, ListForEvent(t.rows, e, scopeFrom)).toInsert ==>
              PlannedEnd(planned, p.startsAt) == Some(p.endsAt)
              && !exists r :: r in t.rows && InScope(r, e, scopeFrom) && r.startsAt == p.startsAt
  {
    hide ListForEvent, ByStart, Inserts, Updates, Deletes, PlannedEnd;
    var existing := ListForEvent(t.rows, e, scopeFrom);
    InsertsAreNew(planned, {}, ByStart(existing));
    forall p, r | p in Inserts(planned, {}, ByStart(existing)) && r in t.rows && InScope(r, e, scopeFrom)
      ensures r.startsAt != p.startsAt
    {
      Listed(t.rows, e, scopeFrom, r);
      IndexByStart(existing, p.startsAt);
    }
  }

  // When every row in scope already sits at a planned start with the planned end, nothing is deleted, updated or lost.
  lemma AgreementKeepsRows(t: Table, e: int, planned: seq<Planned>, scopeFrom: Option<int>)
    requires Sound(t) && FromScope(planned, scopeFrom)
    requires forall r :: r in t.rows && InScope(r, e, scopeFrom) ==> PlannedEnd(planned, r.startsAt) == Some(r.endsAt)
    ensures var todo := PlanFor(planned, ListForEvent(t.rows, e, scopeFrom));
            todo.toDelete == [] && todo.toUpdate == []
            && forall r :: r in t.rows ==> r in Applied(t, e, todo).rows
  {
    hide Sound, ListForEvent, ByStart, Inserts, Updates, Deletes, PlannedEnd, Starts, Applied;
    var existing := ListForEvent(t.rows, e, scopeFrom);
    var byStart := ByStart(existing);
    forall s | s in byStart ensures PlannedEnd(planned, s) == Some(byStart[s].endsAt) {
      IndexByStart(existing, s);
      Listed(t.rows, e, scopeFrom, byStart[s]);
    }
    NoUpdates(planned, {}, byStart);
    if Deletes(existing, Starts(planned)) != [] {
      var id := Deletes(existing, Starts(planned))[0];
      DeletedIds(existing, Starts(planned), id);
      var r :| r in existing && r.startsAt !in Starts(planned);
      Listed(t.rows, e, scopeFrom, r);
      PlannedStarts(planned, r.startsAt);
    }
    ReconcileIsCorrect(t, e, planned, scopeFrom);
    forall r | r in t.rows && InScope(r, e, scopeFrom) ensures Kept(t, e, planned, scopeFrom, r) {
      assert r == r.(endsAt := r.endsAt);
    }
  }

  lemma {:induction false} NoUpdates(planned: seq<Planned>, seen: set<int>, byStart: map<int, Row>)
    requires forall s :: s !in seen && PlannedEnd(planned, s).Some? && s in byStart ==>
               PlannedEnd(planned, s) == Some(byStart[s].endsAt)
    ensures Updates(planned, seen, byStart) == []
  {
    if planned != [] {
      var next := seen + {planned[0].startsAt};
      forall s | s !in next ensures PlannedEnd(planned, s) == PlannedEnd(planned[1..], s) {}
      NoUpdates(planned[1..], next, byStart);
      assert PlannedEnd(planned, planned[0].startsAt).Some?;
    }
  }

  // A null marker strands nothing: when rematerialising leaves none, the series has no instance at or past the window's
  // end, so every later window's new part is empty.
  lemma NullMarkerStrandsNothing(ev: EventProps, now: int)
    requires ev.Recurring()
    ensures match PlanOccurrences(ev, MaterialisationWindow(now))
            case Err(_) => true
            case Ok(plan) =>
              plan.materialisedThrough == None ==>
                && (forall n :: IsInstance(ev.Series(), n) ==>
                      InstantOn(ev.Series(), n) < MaterialisationWindow(now).to)
                && forall later, start, end :: Due(ev, later, start, end) ==> start < MaterialisationWindow(now).to
  {
    hide Walk, InstantOn, IsInstance, WellFormed, Lawful, Usable, EndOn, Lists, PlanAll, EndDay;
    WindowsList(ev.Series(), MaterialisationWindow(now));
    WalkedMonths(ev.Series(), MaterialisationWindow(now));
  }

  // The marker is null exactly when the expansion learnt that the rule has ended and nothing is left past the window;
  // otherwise it is the window's end.
  lemma MarkerIs(ev: EventProps, now: int)
    requires ev.Recurring() && Walk(ev.Series(), MaterialisationWindow(now)).Finished?
    requires PlanOccurrences(ev, MaterialisationWindow(now)).Ok?
    ensures var plan, s := PlanOccurrences(ev, MaterialisationWindow(now)).value, ev.Series();
            if MeetsTheEnd(s, MaterialisationWindow(now))
               && forall n :: IsInstance(s, n) ==> InstantOn(s, n) < now + 400 * MS_PER_DAY
            then plan.materialisedThrough == None
            else plan.materialisedThrough == Some(now + 400 * MS_PER_DAY)
  {
    hide Walk, InstantOn, IsInstance, WellFormed, Lawful, Usable, PlanAll, MeetsTheEnd;
    ExhaustedIff(ev.Series(), MaterialisationWindow(now));
    WalkedMonths(ev.Series(), MaterialisationWindow(now));
  }

  // --- Whole runs: sweeps and cancellations ------------------------------------------------------------------------

  function CancelRows(rows: seq<Row>, id: int, at: int): (r: seq<Row>)
    ensures |r| == |rows|
    ensures forall i :: 0 <= i < |rows| ==>
              r[i] == (if rows[i].id == id && rows[i].cancelledAt.None? then rows[i].(cancelledAt := Some(at))
                       else rows[i])
  {
    seq(|rows|, i requires 0 <= i < |rows| =>
      if rows[i].id == id && rows[i].cancelledAt.None? then rows[i].(cancelledAt := Some(at)) else rows[i])
  }

  function PruneRows(rows: seq<Row>, e: int, before: int): seq<Row> {
    if rows == [] then []
    else (if rows[0].eventId == e && rows[0].startsAt < before then [] else [rows[0]]) + PruneRows(rows[1..], e, before)
  }

  // Cancelling an occurrence sets its row's cancellation and nothing else, and a second cancellation changes nothing.
  lemma CancellingIsRecorded(t: Table, id: int, at: int, again: int)
    ensures forall i :: 0 <= i < |t.rows| ==>
              var r, q := t.rows[i], CancelRows(t.rows, id, at)[i];
              && q.(cancelledAt := r.cancelledAt) == r && (q.cancelledAt.Some? <==> r.cancelledAt.Some? || r.id == id)
              && (r.cancelledAt.Some? || r.id != id ==> q == r)
    ensures CancelRows(CancelRows(t.rows, id, at), id, again) == CancelRows(t.rows, id, at)
  {
    hide CancelRows;
  }

  // A member cancelling one occurrence, or the background sweep visiting the event.
  datatype Step = Cancel(id: int, at: int) | Sweep(now: int)

  // The event's marker, the table, and when the table was last brought up to date.
  datatype State = State(through: Option<int>, table: Table, upTo: int)

  // commands/materialise-horizon.command.ts for a recurring event that is not cancelled.
  ghost function After(ev: EventProps, st: State, step: Step): State
    requires ev.Recurring()
  {
    match step
    case Cancel(id, at) => st.(table := st.table.(rows := CancelRows(st.table.rows, id, at)))
    case Sweep(now) =>
      var w := MaterialisationWindow(now);
      if st.through.None? || st.through.value >= w.to then st
      else
        match PlanOccurrences(ev, w)
        case Err(_) => st
        case Ok(plan) =>
          var t := Reconciled(st.table, ev.id, plan.planned, plan.scopeFrom);
          State(plan.materialisedThrough, t.(rows := PruneRows(t.rows, ev.id, w.from)), now)
  }

  ghost function Run(ev: EventProps, st: State, steps: seq<Step>): State
    requires ev.Recurring()
    decreases |steps|
  {
    if steps == [] then st else Run(ev, After(ev, st, steps[0]), steps[1..])
  }

  ghost predicate Current(ev: EventProps, st: State)
    requires ev.Recurring()
  {
    Sound(st.table) && UpToDate(ev, st.table, st.upTo)
    && (st.through.Some? ==> st.through.value == MaterialisationWindow(st.upTo).to)
    && (st.through.None? ==> NothingAhead(ev, st.upTo))
  }

  // No instance is left from the window's end on.
  ghost predicate NothingAhead(ev: EventProps, now: int)
    requires ev.Recurring()
  {
    forall n :: IsInstance(ev.Series(), n) ==> InstantOn(ev.Series(), n) < MaterialisationWindow(now).to
  }

  // Creating the event, or any other rematerialisation of it, leaves such a state.
  lemma RematerialisedIsCurrent(ev: EventProps, t: Table, now: int)
    requires ev.Recurring() && Sound(t) && PlanOccurrences(ev, MaterialisationWindow(now)).Ok?
    ensures var plan := PlanOccurrences(ev, MaterialisationWindow(now)).value;
            Current(ev, State(plan.materialisedThrough, Reconciled(t, ev.id, plan.planned, plan.scopeFrom), now))
  {
    hide PlanOccurrences, UpToDate, Sound, Reconciled, WellFormed, InstantOn, IsInstance, MaterialisationWindow, Due;
    RematerialiseBringsUpToDate(ev, t, now);
    PlanMarker(ev, now);
    NullMarkerStrandsNothing(ev, now);
  }

  // The same occurrence: a row may only gain a cancellation.
  ghost predicate SameOccurrence(a: Row, b: Row) {
    a == b || (a.cancelledAt.None? && a == b.(cancelledAt := None))
  }

  lemma CancelIsSafe(ev: EventProps, st: State, id: int, at: int)
    requires ev.Recurring() && Current(ev, st)
    ensures Current(ev, After(ev, st, Cancel(id, at)))
    ensures forall r :: r in st.table.rows ==>
              exists q :: q in After(ev, st, Cancel(id, at)).table.rows && SameOccurrence(r, q)
  {
    hide Due, WellFormed, Sound, UpToDate, CancelRows, EventProps.Recurring;
    var rows, after := st.table.rows, CancelRows(st.table.rows, id, at);
    CancelIsSound(st.table, id, at);
    forall r | r in rows ensures exists q :: q in after && SameOccurrence(r, q) {
      var i :| 0 <= i < |rows| && rows[i] == r;
      assert after[i] in after && SameOccurrence(r, after[i]);
    }
    CancelKeepsDates(ev, st.table, st.upTo, id, at);
  }

  lemma CancelIsSound(t: Table, id: int, at: int)
    requires Sound(t)
    ensures Sound(t.(rows := CancelRows(t.rows, id, at)))
  {
    hide CancelRows;
  }

  lemma CancelKeepsDates(ev: EventProps, t: Table, now: int, id: int, at: int)
    requires ev.Recurring() && UpToDate(ev, t, now)
    ensures UpToDate(ev, t.(rows := CancelRows(t.rows, id, at)), now)
  {
    hide Due, WellFormed, InScope, CancelRows, EventProps.Recurring;
    var after := CancelRows(t.rows, id, at);
    var from := Some(MaterialisationWindow(now).from);
    forall r | r in after && InScope(r, ev.id, from) ensures Due(ev, now, r.startsAt, r.endsAt) {
      var q := RowBefore(t.rows, id, at, r);
      SameScope(q, r, ev.id, from);
    }
    forall start, end | Due(ev, now, start, end)
      ensures exists r :: r in after && InScope(r, ev.id, from) && r.startsAt == start
    {
      var r :| r in t.rows && InScope(r, ev.id, from) && r.startsAt == start;
      var q := RowAfter(t.rows, id, at, r);
      SameScope(r, q, ev.id, from);
    }
  }

  // A cancellation changes one row's cancelledAt: each row after it is a row before it at the same times, and back.
  lemma RowBefore(rows: seq<Row>, id: int, at: int, r: Row) returns (q: Row)
    requires r in CancelRows(rows, id, at)
    ensures q in rows && q.eventId == r.eventId && q.startsAt == r.startsAt && q.endsAt == r.endsAt
  {
    var i :| 0 <= i < |rows| && CancelRows(rows, id, at)[i] == r;
    q := rows[i];
  }

  lemma RowAfter(rows: seq<Row>, id: int, at: int, r: Row) returns (q: Row)
    requires r in rows
    ensures q in CancelRows(rows, id, at) && q.eventId == r.eventId && q.startsAt == r.startsAt && q.endsAt == r.endsAt
  {
    var i :| 0 <= i < |rows| && rows[i] == r;
    q := CancelRows(rows, id, at)[i];
  }

  lemma SameScope(q: Row, r: Row, e: int, from: Option<int>)
    requires q.eventId == r.eventId && q.startsAt == r.startsAt
    ensures InScope(q, e, from) <==> InScope(r, e, from)
  {}

  lemma {:induction false} Pruned(rows: seq<Row>, e: int, before: int, r: Row)
    ensures r in PruneRows(rows, e, before) <==> r in rows && !(r.eventId == e && r.startsAt < before)
  {
    if rows != [] {
      Pruned(rows[1..], e, before, r);
      assert rows == [rows[0]] + rows[1..];
    }
  }

  lemma {:induction false} PruneIsSound(rows: seq<Row>, nextId: int, e: int, before: int)
    requires Distinct(rows, nextId)
    ensures Distinct(PruneRows(rows, e, before), nextId)
  {
    hide Distinct;
    if rows != [] {
      Unprepend(rows, nextId);
      PruneIsSound(rows[1..], nextId, e, before);
      var rest := PruneRows(rows[1..], e, before);
      forall r | r in rest ensures Apart(rows[0], r) { Pruned(rows[1..], e, before, r); }
      Prepend(rows[0], rest, nextId);
      assert [] + rest == rest;
    }
  }

  lemma SweepIsSafe(ev: EventProps, st: State, now: int)
    requires ev.Recurring() && Current(ev, st)
    ensures var after := After(ev, st, Sweep(now));
            && Current(ev, after) && st.upTo <= after.upTo
            && forall r :: r in st.table.rows ==>
                 (r.eventId == ev.id && r.startsAt < MaterialisationWindow(after.upTo).from) || r in after.table.rows
  {
    hide PlanOccurrences, Due, WellFormed, Sound, Reconciled, PruneRows, InScope;
    var w := MaterialisationWindow(now);
    if st.through.Some? && st.through.value < w.to {
      match PlanOccurrences(ev, w) {
        case Err(_) =>
        case Ok(plan) =>
          var t := Reconciled(st.table, ev.id, plan.planned, plan.scopeFrom);
          RematerialiseBringsUpToDate(ev, st.table, now);
          PruneIsSound(t.rows, t.nextId, ev.id, w.from);
          PruneKeepsUpToDate(ev, t, now);
          SweepKeepsRows(ev, st, now);
          PlanMarker(ev, now);
          NullMarkerStrandsNothing(ev, now);
      }
    }
  }

  lemma InScopeLater(r: Row, e: int, from: int, later: int)
    requires InScope(r, e, Some(from)) && later <= r.startsAt
    ensures InScope(r, e, Some(later))
  {}

  // What is due by then and before the end of the old window was due already.
  lemma StillAhead(ev: EventProps, st: State, now: int, start: int, end: int)
    requires ev.Recurring() && Current(ev, st) && st.upTo <= now && Due(ev, now, start, end)
    ensures MaterialisationWindow(now).from <= start
    ensures st.through.None? ==>
              exists r :: r in st.table.rows && InScope(r, ev.id, Some(MaterialisationWindow(st.upTo).from))
                          && r.startsAt == start
  {
    hide WellFormed, Sound, InScope, IsInstance, InstantOn, EndOn, InReach, ReachedIn, Due;
    DueInWindow(ev, now, start, end);
    DueIff(ev, now, start, end);
    DueLater(ev, st.upTo, now, start, end);
  }

  // And it does its work: unless it is refused, every occurrence due by then has its row, and when it extends the
  // horizon no row of the event from before the window is left.
  lemma SweepCatchesUp(ev: EventProps, st: State, now: int)
    requires ev.Recurring() && Current(ev, st) && st.upTo <= now
    requires PlanOccurrences(ev, MaterialisationWindow(now)).Ok?
    ensures var after := After(ev, st, Sweep(now));
            && (forall start, end :: Due(ev, now, start, end) ==>
                  exists r :: r in after.table.rows && InScope(r, ev.id, Some(MaterialisationWindow(now).from))
                              && r.startsAt == start)
            && (st.through.Some? && st.upTo < now ==>
                  && (forall r :: r in after.table.rows && r.eventId == ev.id ==>
                        r.startsAt >= now - 400 * MS_PER_DAY)
                  && after.upTo == now)
  {
    hide PlanOccurrences, Due, WellFormed, Sound, Reconciled, PruneRows, InScope, IsInstance, InstantOn, EndOn;
    SweepIsSafe(ev, st, now);
    var after := After(ev, st, Sweep(now));
    forall start, end | Due(ev, now, start, end)
      ensures exists r :: r in after.table.rows && InScope(r, ev.id, Some(MaterialisationWindow(now).from))
                          && r.startsAt == start
    {
      StillAhead(ev, st, now, start, end);
      if st.through.None? {
        var w, v := MaterialisationWindow(st.upTo), MaterialisationWindow(now);
        var r :| r in st.table.rows && InScope(r, ev.id, Some(w.from)) && r.startsAt == start;
        InScopeLater(r, ev.id, w.from, v.from);
      }
    }
    if st.through.Some? && st.upTo < now { SweepPrunes(ev, st, now); }
  }

  lemma SweepPrunes(ev: EventProps, st: State, now: int)
    requires ev.Recurring() && Current(ev, st) && st.through.Some? && st.upTo < now
    requires PlanOccurrences(ev, MaterialisationWindow(now)).Ok?
    ensures var after := After(ev, st, Sweep(now));
            && after.upTo == now
            && forall r :: r in after.table.rows && r.eventId == ev.id ==> r.startsAt >= now - 400 * MS_PER_DAY
  {
    hide PlanOccurrences, UpToDate, WellFormed, Sound, Reconciled, PruneRows, IsInstance, InstantOn;
    var plan := PlanOccurrences(ev, MaterialisationWindow(now)).value;
    var t := Reconciled(st.table, ev.id, plan.planned, plan.scopeFrom);
    forall r | r in After(ev, st, Sweep(now)).table.rows && r.eventId == ev.id
      ensures r.startsAt >= now - 400 * MS_PER_DAY
    {
      Pruned(t.rows, ev.id, MaterialisationWindow(now).from, r);
    }
  }

  lemma PlanMarker(ev: EventProps, now: int)
    requires ev.Recurring()
    ensures match PlanOccurrences(ev, MaterialisationWindow(now))
            case Err(_) => true
            case Ok(plan) =>
              plan.materialisedThrough.None? || plan.materialisedThrough.value == MaterialisationWindow(now).to
  {
    hide Walk, WellFormed, PlanAll;
  }

  lemma PruneKeepsUpToDate(ev: EventProps, t: Table, now: int)
    requires ev.Recurring() && UpToDate(ev, t, now)
    ensures UpToDate(ev, t.(rows := PruneRows(t.rows, ev.id, MaterialisationWindow(now).from)), now)
  {
    hide Due, WellFormed, PruneRows;
    var from := MaterialisationWindow(now).from;
    forall r
      ensures r in PruneRows(t.rows, ev.id, from) <==> r in t.rows && !(r.eventId == ev.id && r.startsAt < from)
    {
      Pruned(t.rows, ev.id, from, r);
    }
  }

  lemma SweepKeepsRows(ev: EventProps, st: State, now: int)
    requires ev.Recurring() && Current(ev, st) && st.upTo <= now
    requires PlanOccurrences(ev, MaterialisationWindow(now)).Ok?
    ensures var plan := PlanOccurrences(ev, MaterialisationWindow(now)).value;
            var t := Reconciled(st.table, ev.id, plan.planned, plan.scopeFrom);
            var from := MaterialisationWindow(now).from;
            forall r :: r in st.table.rows && !(r.eventId == ev.id && r.startsAt < from) ==>
                r in PruneRows(t.rows, ev.id, from)
  {
    hide PlanOccurrences, Due, WellFormed, Sound, PruneRows, UpToDate, Applied, PlanFor, ListForEvent;
    AdvancingTheHorizonIsConservative(ev, st.table, st.upTo, now);
    var plan := PlanOccurrences(ev, MaterialisationWindow(now)).value;
    var t := Reconciled(st.table, ev.id, plan.planned, plan.scopeFrom);
    var from := MaterialisationWindow(now).from;
    forall r
      ensures r in PruneRows(t.rows, ev.id, from) <==> r in t.rows && !(r.eventId == ev.id && r.startsAt < from)
    {
      Pruned(t.rows, ev.id, from, r);
    }
  }

  // Over any run of sweeps and cancellations the table stays up to date, and an occurrence still inside the window at
  // the end is the very row it was at the start: the same id and times, and once cancelled, cancelled still.
  lemma {:induction false} RunsKeepOccurrences(ev: EventProps, st: State, steps: seq<Step>)
    requires ev.Recurring() && Current(ev, st)
    ensures Current(ev, Run(ev, st, steps)) && st.upTo <= Run(ev, st, steps).upTo
    ensures forall r :: r in st.table.rows && r.startsAt >= MaterialisationWindow(Run(ev, st, steps).upTo).from ==>
              exists q :: q in Run(ev, st, steps).table.rows && SameOccurrence(r, q)
    decreases |steps|
  {
    hide Due, WellFormed, Sound, After, Current, EventProps.Recurring, SameOccurrence;
    if steps == [] {
      forall r ensures SameOccurrence(r, r) { SameTwice(r, r, r); }
    } else {
      var next := After(ev, st, steps[0]);
      StepKeepsOccurrences(ev, st, steps[0]);
      RunsKeepOccurrences(ev, next, steps[1..]);
      var end := Run(ev, next, steps[1..]);
      forall r | r in st.table.rows && r.startsAt >= MaterialisationWindow(end.upTo).from
        ensures exists q :: q in end.table.rows && SameOccurrence(r, q)
      {
        var p :| p in next.table.rows && SameOccurrence(r, p);
        SameTwice(r, p, p);
        var q :| q in end.table.rows && SameOccurrence(p, q);
        SameTwice(r, p, q);
      }
    }
  }

  lemma SameTwice(a: Row, b: Row, c: Row)
    ensures SameOccurrence(a, a)
    ensures SameOccurrence(a, b) ==> a.startsAt == b.startsAt
    ensures SameOccurrence(a, b) && SameOccurrence(b, c) ==> SameOccurrence(a, c)
  {}

  lemma StepKeepsOccurrences(ev: EventProps, st: State, step: Step)
    requires ev.Recurring() && Current(ev, st)
    ensures Current(ev, After(ev, st, step)) && st.upTo <= After(ev, st, step).upTo
    ensures forall r :: r in st.table.rows && r.startsAt >= MaterialisationWindow(After(ev, st, step).upTo).from ==>
              exists q :: q in After(ev, st, step).table.rows && SameOccurrence(r, q)
  {
    hide Due, WellFormed, Sound, After, Current, EventProps.Recurring, SameOccurrence;
    match step {
      case Cancel(id, at) =>
        CancelIsSafe(ev, st, id, at);
        CancelMovesNothing(ev, st, id, at);
      case Sweep(now) =>
        SweepIsSafe(ev, st, now);
        forall r ensures SameOccurrence(r, r) { SameTwice(r, r, r); }
    }
  }

  lemma CancelMovesNothing(ev: EventProps, st: State, id: int, at: int)
    requires ev.Recurring()
    ensures After(ev, st, Cancel(id, at)).upTo == st.upTo
  {}
}
