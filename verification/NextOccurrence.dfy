// packages/kernel/src/recurrence/next-occurrence.ts: the doubling-window search for the first occurrence after an
// instant.
module NextOccurrence {
  import opened Prelude
  import opened CivilDate
  import opened ZonedTime
  import opened Rules
  import opened Expand
  import opened ExpandExact
  import opened PeriodGuard
  import opened RecurrenceSet
  import opened WalkEnds

  const MAX_STEPS: int := 64
  const MAX_SPAN_DAYS: int := 3660

  function Min(a: int, b: int): int { if a <= b then a else b }

  function InitialSpanDays(r: Rule): int {
    var perPeriod := match r.freq case Daily => 2 case Weekly => 8 case Monthly => 32 case Yearly => 367;
    Min(perPeriod * r.interval, MAX_SPAN_DAYS)
  }

  function NextSpan(spanDays: int): int { Min(spanDays * 2, MAX_SPAN_DAYS) }

  function StepWindow(from: int, spanDays: int): Window {
    Window(from, from + spanDays * MS_PER_DAY, MAX_OCCURRENCES)
  }

  // How the search ends; the source returns the last two alike.
  datatype Search =
    | Found(occurrence: Occurrence)
    | Refused(error: RecurrenceError)
    | Ended
    | GaveUp(searchedTo: int)
  {
    function Result(): Prelude.Result<Option<Occurrence>, RecurrenceError> {
      match this
      case Found(o) => Ok(Some(o))
      case Refused(e) => Err(e)
      case Ended => Ok(None)
      case GaveUp(_) => Ok(None)
    }
  }

  function SearchFrom(s: Series, from: int, spanDays: int, steps: int): Search
    requires s.Parsed()
    decreases steps
  {
    if steps <= 0 then GaveUp(from)
    else
      var w := StepWindow(from, spanDays);
      match Walk(s, w).Result()
      case Err(e) => Refused(e)
      case Ok(e) =>
        if e.occurrences != [] then Found(e.occurrences[0])
        else if e.exhausted then Ended
        else SearchFrom(s, w.to, NextSpan(spanDays), steps - 1)
  }

  function SearchAfter(s: Series, after: int): Search
    requires s.Parsed()
  {
    var steps := MAX_STEPS;
    SearchFrom(s, after + 1, InitialSpanDays(s.rule), steps)
  }

  method NextOccurrenceAfter(s: Series, after: int) returns (r: Result<Option<Occurrence>, RecurrenceError>)
    requires s.Parsed()
    ensures r == SearchAfter(s, after).Result()
  {
    hide Walk;
    var from := after + 1;
    var spanDays := InitialSpanDays(s.rule);
    var step := 0;
    while step < MAX_STEPS
      invariant 0 <= step <= MAX_STEPS
      invariant SearchAfter(s, after) == SearchFrom(s, from, spanDays, MAX_STEPS - step)
    {
      var to := from + spanDays * MS_PER_DAY;
      var expansion := Expand.Expand(s, Window(from, to, MAX_OCCURRENCES));
      match expansion {
        case Err(e) => return Err(e);
        case Ok(e) =>
          if e.occurrences != [] { return Ok(Some(e.occurrences[0])); }
          if e.exhausted { return Ok(None); }
      }
      from := to;
      spanDays := Min(spanDays * 2, MAX_SPAN_DAYS);
      step := step + 1;
    }
    return Ok(None);
  }

  // --- The answer --------------------------------------------------------------------------------------------------

  // The first instance of the series strictly after an instant.
  ghost predicate IsFirstAfter(s: Series, after: int, o: Occurrence)
    requires s.Valid()
  {
    exists n :: FallsFirst(s, after, n) && o == OccurrenceOn(s, n)
  }

  ghost predicate FallsFirst(s: Series, after: int, n: int)
    requires s.Valid()
  {
    && IsInstance(s, n) && after < InstantOn(s, n)
    && forall m :: IsInstance(s, m) && after < InstantOn(s, m) ==> InstantOn(s, n) <= InstantOn(s, m)
  }

  // No instance the walk reaches lies between the two instants.
  ghost predicate NoneBetween(s: Series, after: int, to: int)
    requires s.Valid()
  {
    forall n :: IsInstance(s, n) && InReach(s, n) ==> InstantOn(s, n) <= after || to <= InstantOn(s, n)
  }

  ghost predicate Answers(s: Series, after: int, r: Search)
    requires s.Valid()
  {
    match r
    case Found(o) => IsFirstAfter(s, after, o)
    case Ended => forall n :: IsInstance(s, n) ==> InstantOn(s, n) <= after
    case GaveUp(to) => NoneBetween(s, after, to)
    case Refused(RecurrenceTooDense(limit)) =>
      exists from, to :: after < from && NoneBetween(s, after, from) && to <= from + MAX_SPAN_DAYS * MS_PER_DAY
                         && |ReachedIn(s, from, to)| > limit == MAX_OCCURRENCES
  }

  // An instance out of the walk's reach comes after those in it.
  lemma ReachIsEarlier(s: Series, n: int, m: int)
    requires s.Valid() && IsInstance(s, n) && InReach(s, n) && IsInstance(s, m) && !InReach(s, m)
    ensures InstantOn(s, n) < InstantOn(s, m)
  {
    hide InstantOn, PeriodDay, Selected, UnitOf, Beyond, Rank, Lawful, Usable, WellFormed;
    InstantsAscend(s, n, m);
  }

  lemma FirstListed(s: Series, after: int, w: Window, occurrences: seq<Occurrence>)
    requires s.Valid() && after < w.from && NoneBetween(s, after, w.from)
    requires Lists(s, occurrences, ReachedIn(s, w.from, w.to)) && occurrences != []
    ensures IsFirstAfter(s, after, occurrences[0])
  {
    hide IsInstance, InstantOn, LocalOn, Lawful, UntilAllowed, Usable, DayNumber, MonthLength, EndDay, InReach,
         ReachedIn;
    var o := occurrences[0];
    var n := DayOf(o);
    ReachedInWindow(s, w.from, w.to, n);
    forall m | IsInstance(s, m) && after < InstantOn(s, m) ensures o.instant <= InstantOn(s, m) {
      ReachedInWindow(s, w.from, w.to, m);
      if !InReach(s, m) {
        ReachIsEarlier(s, n, m);
      } else if InstantOn(s, m) < w.to {
        var i :| 0 <= i < |occurrences| && occurrences[i] == OccurrenceOn(s, m);
      }
    }
    assert FallsFirst(s, after, n);
  }

  lemma NothingListed(s: Series, after: int, w: Window)
    requires s.Valid() && NoneBetween(s, after, w.from) && Lists(s, [], ReachedIn(s, w.from, w.to))
    ensures NoneBetween(s, after, w.to)
  {
    hide IsInstance, InstantOn, LocalOn, Lawful, UntilAllowed, Usable, DayNumber, MonthLength, ReachedIn, InReach;
    assert ReachedIn(s, w.from, w.to) == {};
    forall n | IsInstance(s, n) && InReach(s, n) ensures InstantOn(s, n) <= after || w.to <= InstantOn(s, n) {
      ReachedInWindow(s, w.from, w.to, n);
    }
  }

  lemma {:induction false} SearchIsCorrect(s: Series, after: int, from: int, spanDays: int, steps: int)
    requires s.Valid() && s.Parsed() && after < from && 0 <= spanDays <= MAX_SPAN_DAYS && NoneBetween(s, after, from)
    ensures Answers(s, after, SearchFrom(s, from, spanDays, steps))
    decreases steps
  {
    hide Walk, IsInstance, InstantOn, Lists, Lawful, UntilAllowed, Usable, ReachedIn, IsFirstAfter, InReach, WellFormed;
    if steps > 0 {
      var w := StepWindow(from, spanDays);
      WindowsList(s, w);
      match Walk(s, w).Result() {
        case Err(e) =>
        case Ok(e) =>
          if e.occurrences != [] {
            FirstListed(s, after, w, e.occurrences);
          } else {
            NothingListed(s, after, w);
            if !e.exhausted { SearchIsCorrect(s, after, w.to, NextSpan(spanDays), steps - 1); }
          }
      }
    }
  }

  lemma SpanIsShort(r: Rule)
    requires WellFormed(r)
    ensures 2 <= InitialSpanDays(r) <= MAX_SPAN_DAYS
  {
    hide UntilAllowed;
  }

  // nextOccurrenceAfter answers the question it is asked, for every rule.
  lemma NextOccurrenceIsFirst(s: Series, after: int)
    requires s.Valid() && s.Parsed()
    ensures Answers(s, after, SearchAfter(s, after))
  {
    hide IsInstance, InstantOn, Lawful, UntilAllowed, Usable, Answers, SearchFrom, InReach;
    var steps := MAX_STEPS;
    SpanIsShort(s.rule);
    SearchIsCorrect(s, after, after + 1, InitialSpanDays(s.rule), steps);
  }

  // --- Exactly what comes back -------------------------------------------------------------------------------------

  // The one of the search's windows an instant lies in, if it lies in one.
  function Rung(from: int, spanDays: int, steps: int, t: int): Option<Window>
    decreases steps
  {
    if steps <= 0 || t < from then None
    else if t < from + spanDays * MS_PER_DAY then Some(StepWindow(from, spanDays))
    else Rung(from + spanDays * MS_PER_DAY, NextSpan(spanDays), steps - 1, t)
  }

  ghost predicate Findable(s: Series, after: int, n: int)
    requires s.Valid()
  {
    && InReach(s, n)
    && (match Rung(after + 1, InitialSpanDays(s.rule), MAX_STEPS, InstantOn(s, n))
        case None => false
        case Some(w) => |ReachedIn(s, w.from, w.to)| <= MAX_OCCURRENCES)
  }

  // What comes back when the first later instance is on day n, in that window: past the walk's reach it is missed.
  ghost function Expected(s: Series, n: int, rung: Option<Window>): Result<Option<Occurrence>, RecurrenceError>
    requires s.Valid()
  {
    if !InReach(s, n) then Ok(None)
    else
      match rung
      case None => Ok(None)
      case Some(w) =>
        if |ReachedIn(s, w.from, w.to)| <= MAX_OCCURRENCES then Ok(Some(OccurrenceOn(s, n)))
        else Err(RecurrenceTooDense(MAX_OCCURRENCES))
  }

  // A window before the first instance is empty, and does not end the search.
  lemma EmptyWindow(s: Series, after: int, n: int, w: Window)
    requires s.Valid() && s.Parsed() && FallsFirst(s, after, n) && InReach(s, n)
             && after < w.from <= w.to <= InstantOn(s, n)
    requires w.limit >= 0 && w.to - w.from <= GUARD_DAYS * MS_PER_DAY
    ensures Walk(s, w).Result() == Ok(Expansion([], false))
  {
    hide Walk, IsInstance, InstantOn, Lawful, UntilAllowed, Usable, InReach, WellFormed, InstancesIn, LocalOn;
    WindowsList(s, w);
    forall m ensures m !in ReachedIn(s, w.from, w.to) { ReachedInWindow(s, w.from, w.to, m); }
    assert ReachedIn(s, w.from, w.to) == {};
  }

  // The window of the first instance lists it first, or is refused.
  lemma FullWindow(s: Series, after: int, n: int, w: Window)
    requires s.Valid() && s.Parsed() && FallsFirst(s, after, n) && InReach(s, n)
             && after < w.from <= InstantOn(s, n) < w.to
    requires w.limit >= 0 && w.to - w.from <= GUARD_DAYS * MS_PER_DAY
    ensures match Walk(s, w).Result()
            case Err(e) => e == RecurrenceTooDense(w.limit) && |ReachedIn(s, w.from, w.to)| > w.limit
            case Ok(e) =>
              |ReachedIn(s, w.from, w.to)| <= w.limit && e.occurrences != [] && e.occurrences[0] == OccurrenceOn(s, n)
  {
    hide Walk, IsInstance, InstantOn, Lawful, UntilAllowed, Usable, InReach, WellFormed, InstancesIn, LocalOn,
         ReachedIn;
    WindowsList(s, w);
    ReachedInWindow(s, w.from, w.to, n);
    match Walk(s, w).Result()
    case Err(_) =>
    case Ok(e) =>
      var i :| 0 <= i < |e.occurrences| && e.occurrences[i] == OccurrenceOn(s, n);
      var m := DayOf(e.occurrences[0]);
      ReachedInWindow(s, w.from, w.to, m);
      if i > 0 { assert e.occurrences[0].instant < e.occurrences[i].instant; }
  }

  lemma {:induction false} SearchReturns(s: Series, after: int, from: int, spanDays: int, steps: int, n: int)
    requires s.Valid() && s.Parsed() && after < from && 0 <= spanDays <= MAX_SPAN_DAYS
    requires FallsFirst(s, after, n) && InReach(s, n) && from <= InstantOn(s, n)
    ensures SearchFrom(s, from, spanDays, steps).Result()
            == Expected(s, n, Rung(from, spanDays, steps, InstantOn(s, n)))
    decreases steps
  {
    hide Walk, FallsFirst, InstantOn, Lawful, UntilAllowed, Usable, InReach, WellFormed, ReachedIn, OccurrenceOn;
    if steps > 0 {
      var w := StepWindow(from, spanDays);
      if InstantOn(s, n) < w.to {
        FullWindow(s, after, n, w);
      } else {
        EmptyWindow(s, after, n, w);
        SearchReturns(s, after, w.to, NextSpan(spanDays), steps - 1, n);
      }
    }
  }

  // The first instance after the instant is found if and only if it is in the walk's reach and the window of the search
  // it lies in holds no more than the limit; a window with more is refused, and an instance out of reach or past all
  // windows is missed.
  lemma SearchFindsIff(s: Series, after: int, n: int)
    requires s.Valid() && s.Parsed() && FallsFirst(s, after, n)
    ensures var rung := Rung(after + 1, InitialSpanDays(s.rule), MAX_STEPS, InstantOn(s, n));
            SearchAfter(s, after).Result() == Expected(s, n, rung)
    ensures SearchAfter(s, after).Result() == Ok(Some(OccurrenceOn(s, n))) <==> Findable(s, after, n)
  {
    hide SearchFrom, InstantOn, Lawful, UntilAllowed, Usable, InReach, ReachedIn, IsInstance, OccurrenceOn;
    var steps := MAX_STEPS;
    SpanIsShort(s.rule);
    if InReach(s, n) {
      SearchReturns(s, after, after + 1, InitialSpanDays(s.rule), steps, n);
    } else {
      NoneInReach(s, after, n);
      SearchFindsNothing(s, after, after + 1, InitialSpanDays(s.rule), steps);
    }
  }

  lemma NoneInReach(s: Series, after: int, n: int)
    requires s.Valid() && FallsFirst(s, after, n) && !InReach(s, n)
    ensures forall m :: IsInstance(s, m) && InReach(s, m) ==> InstantOn(s, m) <= after
  {
    hide InstantOn, IsInstance, InReach, Lawful, UntilAllowed, Usable;
    forall m | IsInstance(s, m) && InReach(s, m) ensures InstantOn(s, m) <= after { ReachIsEarlier(s, m, n); }
  }

  // When no instance in reach follows, nothing is found and nothing refused.
  lemma {:induction false} SearchFindsNothing(s: Series, after: int, from: int, spanDays: int, steps: int)
    requires s.Valid() && s.Parsed() && after < from && 0 <= spanDays <= MAX_SPAN_DAYS
    requires forall n :: IsInstance(s, n) && InReach(s, n) ==> InstantOn(s, n) <= after
    ensures SearchFrom(s, from, spanDays, steps).Result() == Ok(None)
    decreases steps
  {
    hide Walk, IsInstance, InstantOn, Lawful, UntilAllowed, Usable, InReach, WellFormed, InstancesIn, LocalOn;
    if steps > 0 {
      var w := StepWindow(from, spanDays);
      WindowsList(s, w);
      forall m ensures m !in ReachedIn(s, w.from, w.to) { ReachedInWindow(s, w.from, w.to, m); }
      assert ReachedIn(s, w.from, w.to) == {};
      SearchFindsNothing(s, after, w.to, NextSpan(spanDays), steps - 1);
    }
  }

  // --- When nothing is refused -------------------------------------------------------------------------------------

  // A window of the search is no longer than its first one and the wait up to the instant together.
  lemma {:induction false} RungIsShort(first: int, from: int, spanDays: int, initial: int, steps: int, t: int)
    requires 0 <= initial && spanDays * MS_PER_DAY <= initial * MS_PER_DAY + (from - first)
    ensures match Rung(from, spanDays, steps, t)
            case None => true
            case Some(w) =>
              && w.from <= t < w.to && w.to - w.from <= initial * MS_PER_DAY + (t - first)
              && w.limit == MAX_OCCURRENCES
    decreases steps
  {
    if steps > 0 && from + spanDays * MS_PER_DAY <= t {
      RungIsShort(first, from + spanDays * MS_PER_DAY, NextSpan(spanDays), initial, steps - 1, t);
    }
  }

  function Days(first: int, count: nat): (r: set<int>)
    ensures forall n :: n in r <==> first <= n < first + count
  {
    if count == 0 then {} else Days(first, count - 1) + {first + count - 1}
  }

  lemma {:induction false} DaysAreMany(first: int, count: nat)
    ensures |Days(first, count)| == count
  {
    if count > 0 { DaysAreMany(first, count - 1); }
  }

  // The rule produces one instance a day at most.
  lemma OneADay(s: Series, from: int, to: int)
    requires s.Valid() && from <= to
    ensures |ReachedIn(s, from, to)| <= (to - from) / MS_PER_DAY + 9
  {
    hide InstantOn, IsInstance, InReach, Lawful, UntilAllowed, Usable, WellFormed;
    var lo, hi := Reading(from, s.zone) / DAY - 2, EndDay(s, to);
    forall n | n in ReachedIn(s, from, to) ensures lo <= n < hi {
      StartsLate(s, from, to, n);
    }
    ReadingsApart(s.zone, from, to, s);
    var count := if lo <= hi then hi - lo else 0;
    DaysAreMany(lo, count);
    Subset(ReachedIn(s, from, to), Days(lo, count));
  }

  lemma StartsLate(s: Series, from: int, to: int, n: int)
    requires s.Valid() && n in InstancesIn(s, from, to)
    ensures Reading(from, s.zone) / DAY - 2 <= n < EndDay(s, to)
  {
    hide InstantOn, IsInstance, Lawful, UntilAllowed, Usable, WellFormed, Reading;
    if n + 3 <= Reading(from, s.zone) / DAY { BeforeTheWindow(s, from, n); }
  }

  lemma ReadingsApart(z: Zone, from: int, to: int, s: Series)
    requires Lawful(z) && from <= to && s.zone == z
    ensures EndDay(s, to) - (Reading(from, z) / DAY - 2) <= (to - from) / MS_PER_DAY + 9
  {
    assert Reading(to, z) - Reading(from, z) <= (to - from) / 1000 + 1 + 2 * DAY;
  }

  // --- How far a search that gives up has looked -------------------------------------------------------------------

  function Pow2(n: nat): int { if n == 0 then 1 else 2 * Pow2(n - 1) }

  lemma {:induction false} SpansReachTheirMaximum(s: Series, from: int, spanDays: int, steps: int, doublings: nat)
    requires s.Parsed() && 2 <= spanDays <= MAX_SPAN_DAYS <= spanDays * Pow2(doublings) && doublings <= steps
    requires SearchFrom(s, from, spanDays, steps).GaveUp?
    ensures SearchFrom(s, from, spanDays, steps).searchedTo >= from + (steps - doublings) * MAX_SPAN_DAYS * MS_PER_DAY
    decreases steps
  {
    hide Walk, WellFormed;
    if steps > 0 {
      var next := if doublings > 0 then doublings - 1 else 0;
      assert doublings > 0 ==> spanDays * 2 * Pow2(doublings - 1) == spanDays * Pow2(doublings);
      if NextSpan(spanDays) == MAX_SPAN_DAYS { AtLeastOne(next); }
      SpansReachTheirMaximum(s, from + spanDays * MS_PER_DAY, NextSpan(spanDays), steps - 1, next);
    }
  }

  lemma {:induction false} SpansAreBounded(s: Series, from: int, spanDays: int, steps: int)
    requires s.Parsed() && spanDays <= MAX_SPAN_DAYS && steps >= 0 && SearchFrom(s, from, spanDays, steps).GaveUp?
    ensures SearchFrom(s, from, spanDays, steps).searchedTo <= from + steps * MAX_SPAN_DAYS * MS_PER_DAY
    decreases steps
  {
    hide Walk, WellFormed;
    if steps > 0 { SpansAreBounded(s, from + spanDays * MS_PER_DAY, NextSpan(spanDays), steps - 1); }
  }

  lemma {:induction false} AtLeastOne(n: nat)
    ensures Pow2(n) >= 1
  {
    if n > 0 { AtLeastOne(n - 1); }
  }

  // The step cap is reached only after more than five centuries without an occurrence, and before seven.
  lemma GivingUpTakesCenturies(s: Series, after: int)
    requires s.Parsed() && SearchAfter(s, after).GaveUp?
    ensures after + 193_980 * MS_PER_DAY < SearchAfter(s, after).searchedTo <= after + 1 + 234_240 * MS_PER_DAY
  {
    hide SearchFrom, UntilAllowed;
    var doublings: nat := 11;
    ManyDoublings();
    var steps := MAX_STEPS;
    SpansReachTheirMaximum(s, after + 1, InitialSpanDays(s.rule), steps, doublings);
    SpansAreBounded(s, after + 1, InitialSpanDays(s.rule), steps);
  }

  lemma {:induction false} PastAllRungs(from: int, spanDays: int, steps: int, doublings: nat, t: int)
    requires 2 <= spanDays <= MAX_SPAN_DAYS <= spanDays * Pow2(doublings) && doublings <= steps
    requires from <= t && Rung(from, spanDays, steps, t).None?
    ensures t >= from + (steps - doublings) * MAX_SPAN_DAYS * MS_PER_DAY
    decreases steps
  {
    if steps > 0 {
      var next := if doublings > 0 then doublings - 1 else 0;
      assert doublings > 0 ==> spanDays * 2 * Pow2(doublings - 1) == spanDays * Pow2(doublings);
      if NextSpan(spanDays) == MAX_SPAN_DAYS { AtLeastOne(next); }
      PastAllRungs(from + spanDays * MS_PER_DAY, NextSpan(spanDays), steps - 1, next, t);
    }
  }

  lemma ManyDoublings()
    ensures Pow2(11) == 2048
  {
    assert Pow2(5) == 32;
    assert Pow2(8) == 256;
  }

  // The longest a unit of the rule can be, in days.
  function UnitDays(freq: Frequency): int {
    match freq case Daily => 1 case Weekly => 7 case Monthly => 31 case Yearly => 366
  }

  // The search's first window is no longer than one of the rule's intervals, with a day to spare for each unit.
  lemma FirstWindowIsShort(r: Rule)
    requires WellFormed(r)
    ensures InitialSpanDays(r) <= (UnitDays(r.freq) + 1) * r.interval
  {
    hide UntilAllowed;
  }

  // An instance that comes within 990 days, less one interval of the rule, is found if only it is in reach.
  lemma SoonIsFindable(s: Series, after: int, n: int)
    requires s.Valid() && s.Parsed() && FallsFirst(s, after, n)
    requires InstantOn(s, n) - after <= (990 - (UnitDays(s.rule.freq) + 1) * s.rule.interval) * MS_PER_DAY
    ensures Findable(s, after, n) <==> InReach(s, n)
  {
    hide InstantOn, IsInstance, InReach, Lawful, UntilAllowed, Usable, ReachedIn, InitialSpanDays, UnitDays, WellFormed;
    var span, steps := InitialSpanDays(s.rule), MAX_STEPS;
    SpanIsShort(s.rule);
    FirstWindowIsShort(s.rule);
    assert InstantOn(s, n) - after + span * MS_PER_DAY <= 990 * MS_PER_DAY;
    var doublings: nat := 11;
    ManyDoublings();
    if Rung(after + 1, span, steps, InstantOn(s, n)).None? {
      PastAllRungs(after + 1, span, steps, doublings, InstantOn(s, n));
    }
    RungIsShort(after + 1, after + 1, span, span, steps, InstantOn(s, n));
    var w := Rung(after + 1, span, steps, InstantOn(s, n)).value;
    OneADay(s, w.from, w.to);
  }
}
