// What a rule means, stated date by date and without enumerating anything (RFC 5545 section 3.3.10, the supported
// parts), and the proof that the candidates of a period are exactly the dates of that period with this meaning.
module RecurrenceSet {
  import opened CivilDate
  import opened Rules
  import opened Periods

  // Days are numbered from 1970-01-01, a Thursday.
  function WeekdayOfDay(n: int): Weekday { WEEKDAYS[(n + 3) % 7] }

  // A date at position `pos` of a scope of `len` consecutive dates: pos / 7 dates of the scope before it, and
  // (len - 1 - pos) / 7 after it, have its weekday.
  predicate IsNth(b: ByDay, w: Weekday, pos: int, len: int) {
    w == b.weekday
    && match b.ordinal
       case None => true
       case Some(o) => if o > 0 then pos / 7 == o - 1 else (len - 1 - pos) / 7 == -o - 1
  }

  predicate NthOfMonth(d: LocalDate, b: ByDay)
    requires Gregorian(d)
  {
    IsNth(b, WeekdayOfDay(DayNumber(d)), d.day - 1, MonthLength(d.year, d.month))
  }

  predicate NthOfYear(d: LocalDate, b: ByDay)
    requires Gregorian(d)
  {
    IsNth(b, WeekdayOfDay(DayNumber(d)), DayNumber(d) - DayFromYear(d.year), YearLength(d.year))
  }

  predicate OnMonthDay(d: LocalDate, v: int)
    requires 1 <= d.month <= 12
  {
    d.day == (if v > 0 then v else MonthLength(d.year, d.month) + v + 1)
  }

  predicate MonthLimit(r: Rule, d: LocalDate) { r.byMonth == [] || d.month in r.byMonth }

  predicate DayLimit(r: Rule, d: LocalDate)
    requires Gregorian(d)
  {
    r.byDay == [] || exists b :: b in r.byDay && NthOfMonth(d, b)
  }

  predicate MonthDayLimit(r: Rule, d: LocalDate)
    requires Gregorian(d)
  {
    r.byMonthDay == [] || exists v :: v in r.byMonthDay && OnMonthDay(d, v)
  }

  predicate SelectedInMonth(r: Rule, start: LocalDate, d: LocalDate)
    requires Gregorian(d)
  {
    if r.byMonthDay == [] && r.byDay == [] then d.day == start.day else MonthDayLimit(r, d) && DayLimit(r, d)
  }

  // Does the rule pick this date out of its period?
  predicate Selected(r: Rule, start: LocalDate, d: LocalDate)
    requires Gregorian(start) && Gregorian(d)
  {
    match r.freq
    case Daily => MonthLimit(r, d) && MonthDayLimit(r, d) && DayLimit(r, d)
    case Weekly =>
      && MonthLimit(r, d)
      && var w := WeekdayOfDay(DayNumber(d));
         if r.byDay == [] then w == WeekdayOfDay(DayNumber(start)) else exists b :: b in r.byDay && b.weekday == w
    case Monthly => MonthLimit(r, d) && SelectedInMonth(r, start, d)
    case Yearly =>
      if r.byMonth != [] || r.byMonthDay != [] then MonthLimit(r, d) && SelectedInMonth(r, start, d)
      else if r.byDay != [] then exists b :: b in r.byDay && NthOfYear(d, b)
      else d.month == start.month && d.day == start.day
  }

  // The day, week, month or year a day lies in, counted from a fixed origin.
  function UnitOf(r: Rule, n: int): int {
    match r.freq
    case Daily => n
    case Weekly => (n + 3 - WeekdayIndex(r.wkst)) / 7
    case Monthly => var d := FromEpochDay(n); 12 * d.year + d.month
    case Yearly => FromEpochDay(n).year
  }

  function UnitStart(r: Rule, u: int): int {
    match r.freq
    case Daily => u
    case Weekly => 7 * u - 3 + WeekdayIndex(r.wkst)
    case Monthly => DayNumber(LocalDate((u - 1) / 12, (u - 1) % 12 + 1, 1))
    case Yearly => DayNumber(LocalDate(u, 1, 1))
  }

  // Units are consecutive blocks of days.
  lemma UnitsAreBlocks(r: Rule, u: int, n: int)
    ensures UnitStart(r, u) <= n <==> u <= UnitOf(r, n)
  {
    hide DayNumber, FromEpochDay, MonthLength, WeekdayIndex;
    match r.freq
    case Daily =>
    case Weekly => WeekBlocks(u, n, WeekdayIndex(r.wkst));
    case Monthly => MonthBlocks(u, n);
    case Yearly =>
      FirstOfMonth(LocalDate(u, 1, 1));
      DayNumbersOrderDates(FromEpochDay(n), LocalDate(u, 1, 1));
  }

  lemma WeekBlocks(u: int, n: int, x: int)
    ensures 7 * u - 3 + x <= n <==> u <= (n + 3 - x) / 7
  {}

  lemma MonthBlocks(u: int, n: int)
    ensures DayNumber(LocalDate((u - 1) / 12, (u - 1) % 12 + 1, 1)) <= n
            <==> u <= 12 * FromEpochDay(n).year + FromEpochDay(n).month
  {
    hide DayNumber, FromEpochDay, MonthLength;
    var first := LocalDate((u - 1) / 12, (u - 1) % 12 + 1, 1);
    FirstOfMonth(first);
    DayNumbersOrderDates(FromEpochDay(n), first);
  }

  lemma FirstOfMonth(d: LocalDate)
    requires 1 <= d.month <= 12 && d.day == 1
    ensures Gregorian(d)
  {}

  // --- Scopes of consecutive dates ---------------------------------------------------------------------------------

  ghost predicate Consecutive(scope: seq<LocalDate>, lo: int) {
    lo >= FIRST_PROPER_DAY && forall i :: 0 <= i < |scope| ==> scope[i] == FromEpochDay(lo + i)
  }

  lemma WeekdayIndexOf(i: int)
    requires 0 <= i < 7
    ensures WeekdayIndex(WEEKDAYS[i]) == i
  {
    assert i == 0 || i == 1 || i == 2 || i == 3 || i == 4 || i == 5 || i == 6;
  }

  lemma Shift7(e: int)
    ensures ((e + 4) % 7 + 6) % 7 == (e + 3) % 7
  {
    var q := (e + 4) / 7;
    assert e + 3 == 7 * q + (e + 4) % 7 - 1;
  }

  lemma WeekdayAgrees(d: LocalDate)
    requires Proper(d)
    ensures WeekdayOf(d) == WeekdayOfDay(DayNumber(d))
  {
    hide DayNumber, MonthLength, ToEpochDay, FromEpochDay, WEEKDAYS;
    ProperEpoch(d);
    Shift7(ToEpochDay(d));
  }

  // The first position of weekday w in a scope starting on day lo.
  function FirstOn(w: Weekday, lo: int): (f: int)
    ensures 0 <= f < 7
  {
    (WeekdayIndex(w) - (lo + 3)) % 7
  }

  lemma Congruent7(a: int, i: int, x: int)
    requires 0 <= x < 7
    ensures (a + i) % 7 == x <==> i % 7 == (x - a) % 7
  {
    var p, t, u := (a + i) / 7, (x - a) / 7, i / 7;
    assert i % 7 - (x - a) % 7 == 7 * (p + t - u) + (a + i) % 7 - x;
  }

  lemma WeekdayCycle(w: Weekday, lo: int, i: int)
    ensures WeekdayOfDay(lo + i) == w <==> i % 7 == FirstOn(w, lo)
  {
    Congruent7(lo + 3, i, WeekdayIndex(w));
    assert lo + i + 3 == lo + 3 + i;
    WeekdayIndexOf((lo + i + 3) % 7);
  }

  // How many of the first n positions of a scope are f modulo 7.
  function CountOn(n: int, f: int): int { (n + 6 - f) / 7 }

  // One for every full week, and one more when the position has passed in the week begun.
  lemma CountOnWeeks(n: int, f: int)
    requires 0 <= f < 7
    ensures CountOn(n, f) == n / 7 + (if n % 7 > f then 1 else 0)
  {
    var q, i := n / 7, n % 7;
    assert n == 7 * q + i;
    if i > f { RemainderIs(n + 6 - f, 7, q + 1, i - f - 1); } else { RemainderIs(n + 6 - f, 7, q, i + 6 - f); }
  }

  lemma NextInWeek(n: int)
    ensures (n + 1) / 7 == n / 7 + (if n % 7 == 6 then 1 else 0)
    ensures (n + 1) % 7 == if n % 7 == 6 then 0 else n % 7 + 1
  {
    var q, i := n / 7, n % 7;
    assert n == 7 * q + i;
    if i == 6 { RemainderIs(n + 1, 7, q + 1, 0); } else { RemainderIs(n + 1, 7, q, i + 1); }
  }

  lemma CountOnStep(n: int, f: int)
    requires 0 <= f < 7 && n >= 0
    ensures CountOn(0, f) == 0 && CountOn(n, f) >= 0
    ensures CountOn(n + 1, f) == CountOn(n, f) + (if n % 7 == f then 1 else 0)
    ensures n % 7 == f ==> f + 7 * CountOn(n, f) == n
  {
    hide CountOn;
    CountOnWeeks(0, f);
    CountOnWeeks(n, f);
    CountOnWeeks(n + 1, f);
    NextInWeek(n);
  }

  lemma LastOn(n: int, f: int, i: int)
    requires 0 <= f < 7 && 0 <= i < n && i % 7 == f
    ensures i == f + 7 * (i / 7) && i / 7 < CountOn(n, f)
    ensures (n - 1 - i) / 7 == CountOn(n, f) - 1 - i / 7
  {
    assert n + 6 - f == 7 * CountOn(n, f) + (n + 6 - f) % 7;
    RemainderIs(n - 1 - i, 7, CountOn(n, f) - 1 - i / 7, (n + 6 - f) % 7);
  }

  lemma OnWeekdayAt(scope: seq<LocalDate>, lo: int, w: Weekday, n: nat)
    requires Consecutive(scope, lo) && Months(scope) && n < |scope|
    ensures WeekdayOf(scope[n]) == w <==> n % 7 == FirstOn(w, lo)
  {
    hide Gregorian, Proper, DayNumber, ToEpochDay, FromEpochDay, WeekdayOf, WeekdayOfDay, FirstOn, Months;
    EpochProper(lo + n);
    WeekdayAgrees(scope[n]);
    WeekdayCycle(w, lo, n);
  }

  // The dates of one weekday in a scope are every seventh date from the first one on.
  lemma {:induction false} OnWeekdayPositions(scope: seq<LocalDate>, lo: int, w: Weekday)
    requires Consecutive(scope, lo) && Months(scope)
    ensures |OnWeekday(scope, w)| == CountOn(|scope|, FirstOn(w, lo))
    ensures forall j :: 0 <= j < |OnWeekday(scope, w)| ==>
              FirstOn(w, lo) + 7 * j < |scope| && OnWeekday(scope, w)[j] == scope[FirstOn(w, lo) + 7 * j]
  {
    hide Gregorian, Proper, DayNumber, ToEpochDay, FromEpochDay, WeekdayOf, WeekdayOfDay, FirstOn, CountOn;
    var f := FirstOn(w, lo);
    CountOnStep(0, f);
    if scope != [] {
      var n := |scope| - 1;
      OnWeekdayPositions(scope[..n], lo, w);
      OnWeekdayAt(scope, lo, w, n);
      CountOnStep(n, f);
    }
  }

  lemma PickedSound(scope: seq<LocalDate>, lo: int, b: ByDay, k: int) returns (i: int)
    requires Consecutive(scope, lo) && Months(scope) && (b.ordinal.Some? ==> b.ordinal.value != 0)
    requires 0 <= k < |Picked(scope, b)|
    ensures 0 <= i < |scope| && Picked(scope, b)[k] == scope[i] && IsNth(b, WeekdayOfDay(lo + i), i, |scope|)
  {
    hide Consecutive, WeekdayOfDay, FirstOn, CountOn, OnWeekday, Months;
    var f := FirstOn(b.weekday, lo);
    var m := OnWeekday(scope, b.weekday);
    OnWeekdayPositions(scope, lo, b.weekday);
    var j := match b.ordinal case None => k case Some(o) => if o > 0 then o - 1 else |m| + o;
    i := f + 7 * j;
    RemainderIs(i, 7, j, f);
    WeekdayCycle(b.weekday, lo, i);
    LastOn(|scope|, f, i);
  }

  lemma PickedComplete(scope: seq<LocalDate>, lo: int, b: ByDay, i: int)
    requires Consecutive(scope, lo) && Months(scope) && (b.ordinal.Some? ==> b.ordinal.value != 0)
    requires 0 <= i < |scope| && IsNth(b, WeekdayOfDay(lo + i), i, |scope|)
    ensures scope[i] in Picked(scope, b)
  {
    hide Consecutive, WeekdayOfDay, FirstOn, CountOn, OnWeekday, Months;
    var f := FirstOn(b.weekday, lo);
    var m := OnWeekday(scope, b.weekday);
    OnWeekdayPositions(scope, lo, b.weekday);
    WeekdayCycle(b.weekday, lo, i);
    LastOn(|scope|, f, i);
    assert m[i / 7] == scope[i];
    assert Picked(scope, b)[if b.ordinal.None? then i / 7 else 0] == scope[i];
  }

  // What BYDAY picks from a scope: its dates on the weekday, or exactly the n-th, or the n-th from the end.
  lemma PickedIsNth(scope: seq<LocalDate>, lo: int, b: ByDay, d: LocalDate)
    requires Consecutive(scope, lo) && Months(scope) && (b.ordinal.Some? ==> b.ordinal.value != 0)
    ensures d in Picked(scope, b) <==>
            exists i :: 0 <= i < |scope| && d == scope[i] && IsNth(b, WeekdayOfDay(lo + i), i, |scope|)
  {
    hide Consecutive, WeekdayOfDay, IsNth, Picked, Months;
    if d in Picked(scope, b) {
      var k :| 0 <= k < |Picked(scope, b)| && Picked(scope, b)[k] == d;
      var _ := PickedSound(scope, lo, b, k);
    }
    forall i | 0 <= i < |scope| && d == scope[i] && IsNth(b, WeekdayOfDay(lo + i), i, |scope|)
      ensures d in Picked(scope, b)
    {
      PickedComplete(scope, lo, b, i);
    }
  }
}
